/** The handlers of the identity manager (`State` in `crates/ntk-identities/src/actor.rs`), each proved
    against the specification of its command. */
module IdentityManager {
  import opened Prelude
  import Registration
  import opened Identities

  class State {
    const registry: Registry
    var arcs: map<ArcId, ArcInfo>
    var identityArcs: ArcTable
    var pending: Pendings
    var published: Registered

    function Value(): Node
      reads this, registry
    {
      Node(registry.Value(), arcs, identityArcs, pending, published)
    }

    constructor (mainId: Id, naddr: Option<Registration.Naddr>)
      ensures Value() == Initial(mainId, naddr) && fresh(registry)
    {
      var r := new Registry(mainId, naddr);
      registry := r;
      arcs, identityArcs, pending := map[], map[], map[];
      published := r.Value();
    }

    method PublishSnapshot()
      modifies this`published
      ensures Value() == Publish(old(Value()))
    {
      published := registry.Value();
    }

    method OrDefault(k: (Id, ArcId))
      modifies this`identityArcs
      ensures identityArcs == WithRow(old(identityArcs), k)
    {
      if k !in identityArcs {
        identityArcs := identityArcs[k := []];
      }
    }

    /** An empty row for each identity over a new arc. */
    method AddRowsForArc(arc: ArcId)
      modifies this`identityArcs
      ensures identityArcs == Extended(old(identityArcs), registry.identities.Keys, {arc})
    {
      var all := registry.identities.Keys;
      var left := all;
      ghost var done: set<Id> := {};
      ghost var t := identityArcs;
      while left != {}
        invariant done + left == all
        invariant identityArcs == Extended(t, done, {arc})
        decreases |left|
      {
        ghost var _ := Member(left);
        var id :| id in left;
        ExtendById(t, done, arc, id);
        OrDefault((id, arc));
        left := left - {id};
        done := done + {id};
      }
      assert done == all;
    }

    /** An empty row for a new identity over each arc. */
    method AddRowsForIdentity(id: Id)
      modifies this`identityArcs
      ensures identityArcs == Extended(old(identityArcs), {id}, arcs.Keys)
    {
      var all := arcs.Keys;
      var left := all;
      ghost var done: set<ArcId> := {};
      ghost var t := identityArcs;
      while left != {}
        invariant done + left == all
        invariant identityArcs == Extended(t, {id}, done)
        decreases |left|
      {
        ghost var _ := Member(left);
        var arc :| arc in left;
        ExtendByArc(t, id, done, arc);
        OrDefault((id, arc));
        left := left - {arc};
        done := done + {arc};
      }
      assert done == all;
    }

    method RemoveRowsOfArc(arc: ArcId)
      modifies this`identityArcs
      ensures identityArcs == Reduced(old(identityArcs), registry.identities.Keys, {arc})
    {
      var all := registry.identities.Keys;
      var left := all;
      ghost var done: set<Id> := {};
      ghost var t := identityArcs;
      while left != {}
        invariant done + left == all
        invariant identityArcs == Reduced(t, done, {arc})
        decreases |left|
      {
        ghost var _ := Member(left);
        var id :| id in left;
        ReduceById(t, done, arc, id);
        identityArcs := identityArcs - {(id, arc)};
        left := left - {id};
        done := done + {id};
      }
      assert done == all;
    }

    method RemoveRowsOfIdentity(id: Id)
      modifies this`identityArcs
      ensures identityArcs == Reduced(old(identityArcs), {id}, arcs.Keys)
    {
      var all := arcs.Keys;
      var left := all;
      ghost var done: set<ArcId> := {};
      ghost var t := identityArcs;
      while left != {}
        invariant done + left == all
        invariant identityArcs == Reduced(t, {id}, done)
        decreases |left|
      {
        ghost var _ := Member(left);
        var arc :| arc in left;
        ReduceByArc(t, id, done, arc);
        identityArcs := identityArcs - {(id, arc)};
        left := left - {arc};
        done := done + {arc};
      }
      assert done == all;
    }

    /** `remove_arc`. */
    method RemoveOneArc(arc: ArcId) returns (removed: bool)
      modifies this`arcs, this`identityArcs
      ensures Value() == ArcsRemoved(old(Value()), {arc})
      ensures removed <==> arc in old(arcs)
    {
      if arc !in arcs {
        assert arcs - {arc} == arcs;
        assert {arc} * arcs.Keys == {};
        assert identityArcs == Reduced(identityArcs, registry.identities.Keys, {});
        return false;
      }
      assert {arc} * arcs.Keys == {arc};
      arcs := arcs - {arc};
      RemoveRowsOfArc(arc);
      return true;
    }

    /** `on_add_arc`, up to the background call it starts. */
    method OnAddArc(arc: ArcId, info: ArcInfo) returns (error: Option<Error>)
      modifies this`arcs, this`identityArcs
      ensures (Value(), error) == Handled(old(Value()), AddArc(arc, info))
    {
      if arc in arcs {
        return Some(DuplicateArc(arc));
      }
      arcs := arcs[arc := info];
      AddRowsForArc(arc);
      return None;
    }

    /** `on_apply_arc_add`. */
    method OnApplyArcAdd(arc: ArcId, peer: Option<Id>) returns (error: Option<Error>)
      modifies this`arcs, this`identityArcs
      ensures (Value(), error) == Handled(old(Value()), ApplyArcAdd(arc, peer))
    {
      if peer.None? {
        var _ := RemoveOneArc(arc);
        return Some(PeerFailed);
      }
      if arc !in arcs {
        return Some(UnknownArc(arc));
      }
      var key := (registry.mainId, arc);
      var list := if key in identityArcs then identityArcs[key] else [];
      identityArcs := identityArcs[key := list + [IdentityArc(peer.value, arcs[arc].peerMac, arcs[arc].peerLinklocal)]];
      return None;
    }

    /** `on_prepare_migration`, up to the timer it starts. */
    method OnPrepareMigration(m: MigrationId, oldId: Id) returns (error: Option<Error>)
      modifies this`pending
      ensures (Value(), error) == Handled(old(Value()), PrepareMigration(m, oldId))
    {
      if oldId !in registry.identities {
        return Some(UnknownIdentity(oldId));
      }
      if (m, oldId) in pending {
        return Some(DuplicateMigration(m, oldId));
      }
      pending := pending[(m, oldId) := PendingMigration(false, None, map[])];
      return None;
    }

    /** `on_migrate`, up to the duplication task it starts. */
    method OnMigrate(m: MigrationId, oldId: Id, devices: map<string, DeviceInfo>, newId: Id) returns (error: Option<Error>)
      requires newId !in registry.identities
      modifies this`pending, this`identityArcs, this`published, registry
      ensures (Value(), error) == Handled(old(Value()), Migrate(m, oldId, devices, newId))
    {
      if (m, oldId) !in pending {
        return Some(UnknownMigration(m, oldId));
      }
      if oldId !in registry.identities {
        return Some(UnknownIdentity(oldId));
      }
      ForkRegistry(oldId, newId);
      var p := pending[(m, oldId)];
      p := p.(newId := Some(newId));
      p := p.(devices := devices);
      p := p.(ready := true);
      pending := pending[(m, oldId) := p];
      PublishSnapshot();
      AddRowsForIdentity(newId);
      return None;
    }

    method ForkRegistry(oldId: Id, newId: Id)
      requires oldId in registry.identities && newId !in registry.identities
      modifies registry
      ensures registry.Value() == Forked(old(registry.Value()), oldId, newId)
    {
      var status := registry.identities[oldId].status;
      var _ := registry.Insert(IdentityRecord(newId, None, status));
      var _ := registry.SetStatus(oldId, Connectivity);
      if registry.mainId == oldId {
        registry.ReassignMain(newId);
      }
    }

    /** `on_apply_migration_duplication`. */
    method OnApplyDuplication(m: MigrationId, oldId: Id, newId: Id, outcomes: seq<ArcOutcome>) returns (error: Option<Error>)
      modifies this`arcs, this`identityArcs, this`published
      ensures (Value(), error) == Handled(old(Value()), ApplyMigrationDuplication(m, oldId, newId, outcomes))
    {
      if newId !in registry.identities {
        return Some(UnknownIdentity(newId));
      }
      var broken := DuplicateRows(oldId, newId, outcomes);
      RemoveBroken(broken);
      PublishSnapshot();
      return None;
    }

    /** The outcomes of the arcs that are still registered; the broken ones are returned. */
    method DuplicateRows(oldId: Id, newId: Id, outcomes: seq<ArcOutcome>) returns (broken: seq<ArcId>)
      modifies this`identityArcs
      ensures identityArcs == DuplicatedAll(old(identityArcs), arcs.Keys, oldId, newId, outcomes)
      ensures ArcSet(broken) == BrokenArcs(arcs.Keys, outcomes)
    {
      broken := [];
      ghost var t := identityArcs;
      for k := 0 to |outcomes|
        invariant identityArcs == DuplicatedAll(t, arcs.Keys, oldId, newId, outcomes[..k])
        invariant ArcSet(broken) == BrokenArcs(arcs.Keys, outcomes[..k])
      {
        assert outcomes[..k + 1][..k] == outcomes[..k];
        assert outcomes[..k + 1] == outcomes[..k] + [outcomes[k]];
        var o := outcomes[k];
        BrokenMore(arcs.Keys, outcomes[..k], o);
        ArcSetMore(broken, o.arc);
        if o.arc in arcs {
          DuplicateRow(oldId, newId, o.arc, o.identityArcs);
          if o.broken {
            broken := broken + [o.arc];
          }
        }
      }
      assert outcomes[..|outcomes|] == outcomes;
    }

    method DuplicateRow(oldId: Id, newId: Id, arc: ArcId, ds: seq<Duplication>)
      modifies this`identityArcs
      ensures identityArcs == DuplicatedArc(old(identityArcs), oldId, newId, arc, ds)
    {
      ghost var t := identityArcs;
      for k := 0 to |ds|
        invariant identityArcs == DuplicatedArc(t, oldId, newId, arc, ds[..k])
      {
        assert ds[..k + 1][..k] == ds[..k];
        DuplicateOne(oldId, newId, arc, ds[k]);
      }
      assert ds[..|ds|] == ds;
    }

    method DuplicateOne(oldId: Id, newId: Id, arc: ArcId, d: Duplication)
      modifies this`identityArcs
      ensures identityArcs == DuplicatedOne(old(identityArcs), oldId, newId, arc, d)
    {
      if (oldId, arc) in identityArcs && d.dup.Some? {
        var list := identityArcs[(oldId, arc)];
        var w0 := FindPeer(list, d.peerId);
        if w0.Some? {
          var w := list[w0.value].(peerMac := d.dup.value.peerOldIdNewMac);
          w := w.(peerLinklocal := d.dup.value.peerOldIdNewLinklocal);
          list := list[w0.value := w];
        }
        identityArcs := identityArcs[(oldId, arc) := list];
      }
      var oldList := if (oldId, arc) in identityArcs then identityArcs[(oldId, arc)] else [];
      var now := FindPeer(oldList, d.peerId);
      var peer := if d.dup.Some? then d.dup.value.peerNewId else d.peerId;
      var mac := if now.Some? then oldList[now.value].peerMac else "";
      var linklocal := if now.Some? then oldList[now.value].peerLinklocal else "";
      var newList := if (newId, arc) in identityArcs then identityArcs[(newId, arc)] else [];
      identityArcs := identityArcs[(newId, arc) := newList + [IdentityArc(peer, mac, linklocal)]];
    }

    method RemoveBroken(broken: seq<ArcId>)
      modifies this`arcs, this`identityArcs
      ensures Value() == ArcsRemoved(old(Value()), ArcSet(broken))
    {
      ghost var n := Value();
      RemoveNone(n);
      for k := 0 to |broken|
        invariant Value() == ArcsRemoved(n, ArcSet(broken[..k]))
      {
        RemoveMore(n, ArcSet(broken[..k]), broken[k]);
        assert broken[..k + 1] == broken[..k] + [broken[k]];
        ArcSetMore(broken[..k], broken[k]);
        var _ := RemoveOneArc(broken[k]);
      }
      assert broken[..|broken|] == broken;
    }

    /** `dismiss_identity`, up to the notification it starts. */
    method DismissIdentity(id: Id)
      modifies this`identityArcs, registry
      ensures Value() == IdentityDismissed(old(Value()), id)
    {
      RemoveRowsOfIdentity(id);
      var _ := registry.Dismiss(id);
    }

    /** `on_remove_identity`. */
    method OnRemoveIdentity(id: Id) returns (error: Option<Error>)
      modifies this`identityArcs, this`published, registry
      ensures (Value(), error) == Handled(old(Value()), RemoveIdentity(id))
    {
      if id == registry.mainId {
        return Some(CannotRemoveMainIdentity);
      }
      if id !in registry.identities {
        return Some(UnknownIdentity(id));
      }
      DismissIdentity(id);
      PublishSnapshot();
      return None;
    }

    /** `on_abort_migration`. */
    method OnAbortMigration(oldId: Id, newId: Id) returns (error: Option<Error>)
      modifies this`identityArcs, this`pending, this`published, registry
      ensures (Value(), error) == Handled(old(Value()), AbortMigration(oldId, newId))
    {
      if newId !in registry.identities {
        return Some(UnknownIdentity(newId));
      }
      var newRecord := registry.identities[newId];
      if oldId !in registry.identities {
        return Some(UnknownIdentity(oldId));
      }
      pending := map k | k in pending && !(k.1 == oldId && pending[k].newId == Some(newId)) :: pending[k];
      if registry.mainId == newId {
        registry.ReassignMain(oldId);
      }
      var _ := registry.SetStatus(oldId, newRecord.status);
      DismissIdentity(newId);
      PublishSnapshot();
      return None;
    }

    /** `on_neighbour_migrated`. */
    method OnNeighbourMigrated(id: Id, peerOld: Id, peerNew: Id, mac: string, linklocal: string, arc: ArcId)
      modifies this`identityArcs
      ensures Value() == Handled(old(Value()), NeighbourMigrated(id, peerOld, peerNew, mac, linklocal, arc)).0
    {
      if (id, arc) !in identityArcs {
        return;
      }
      var list := identityArcs[(id, arc)];
      assert identityArcs[(id, arc) := list] == identityArcs;
      var known := FindPeer(list, peerNew);
      if known.Some? {
        return;
      }
      if |mac| > MAX_PEER_STRING_LEN || |linklocal| > MAX_PEER_STRING_LEN {
        return;
      }
      var w0 := FindPeer(list, peerOld);
      if w0.None? {
        return;
      }
      var original := list[w0.value];
      list := list[w0.value := IdentityArc(peerOld, mac, linklocal)];
      identityArcs := identityArcs[(id, arc) := list + [IdentityArc(peerNew, original.peerMac, original.peerLinklocal)]];
    }

    /** `on_notify_identity_arc_removed`. */
    method OnNotifyIdentityArcRemoved(id: Id, peer: Id, arc: ArcId)
      modifies this`identityArcs
      ensures Value() == Handled(old(Value()), NotifyIdentityArcRemoved(id, peer, arc)).0
    {
      if (id, arc) !in identityArcs {
        return;
      }
      var list := identityArcs[(id, arc)];
      assert identityArcs[(id, arc) := list] == identityArcs;
      var pos := FindPeer(list, peer);
      if pos.Some? {
        identityArcs := identityArcs[(id, arc) := list[..pos.value] + list[pos.value + 1..]];
      }
    }

    /** `handle`: every command does what its specification says, so every run of the actor keeps the
        invariant. */
    method Handle(cmd: Command) returns (error: Option<Error>)
      requires Fresh(Value(), cmd)
      modifies this, registry
      ensures (Value(), error) == Handled(old(Value()), cmd)
      ensures old(Inv(Value())) ==> (Inv(Value()) <==> !AbortsMainOntoItself(old(Value()), cmd))
    {
      if Inv(Value()) {
        HandleKeepsInv(Value(), cmd);
      }
      error := None;
      match cmd {
        case AddArc(arc, info) => error := OnAddArc(arc, info);
        case ApplyArcAdd(arc, peer) => error := OnApplyArcAdd(arc, peer);
        case RemoveArc(arc) =>
          var removed := RemoveOneArc(arc);
          error := if removed then None else Some(UnknownArc(arc));
        case PrepareMigration(m, oldId) => error := OnPrepareMigration(m, oldId);
        case Migrate(m, oldId, devices, newId) => error := OnMigrate(m, oldId, devices, newId);
        case ApplyMigrationDuplication(m, oldId, newId, outcomes) =>
          error := OnApplyDuplication(m, oldId, newId, outcomes);
        case CleanupMigration(m, oldId) => pending := pending - {(m, oldId)};
        case RemoveIdentity(id) => error := OnRemoveIdentity(id);
        case AbortMigration(oldId, newId) => error := OnAbortMigration(oldId, newId);
        case SetNaddr(id, naddr) =>
          error := registry.SetNaddr(id, naddr);
          if error.None? {
            PublishSnapshot();
          }
        case NeighbourMigrated(id, peerOld, peerNew, mac, linklocal, arc) =>
          OnNeighbourMigrated(id, peerOld, peerNew, mac, linklocal, arc);
        case NotifyIdentityArcRemoved(id, peer, arc) => OnNotifyIdentityArcRemoved(id, peer, arc);
      }
    }
  }

  // ---------------------------------------------------------------- one row at a time

  function WithRow(t: ArcTable, k: (Id, ArcId)): ArcTable {
    if k in t then t else t[k := []]
  }

  lemma ExtendById(t: ArcTable, ids: set<Id>, arc: ArcId, id: Id)
    ensures Extended(t, ids + {id}, {arc}) == WithRow(Extended(t, ids, {arc}), (id, arc))
  {}

  lemma ExtendByArc(t: ArcTable, id: Id, arcs: set<ArcId>, arc: ArcId)
    ensures Extended(t, {id}, arcs + {arc}) == WithRow(Extended(t, {id}, arcs), (id, arc))
  {}

  lemma ReduceById(t: ArcTable, ids: set<Id>, arc: ArcId, id: Id)
    ensures Reduced(t, ids + {id}, {arc}) == Reduced(t, ids, {arc}) - {(id, arc)}
  {}

  lemma ReduceByArc(t: ArcTable, id: Id, arcs: set<ArcId>, arc: ArcId)
    ensures Reduced(t, {id}, arcs + {arc}) == Reduced(t, {id}, arcs) - {(id, arc)}
  {}

  function ArcSet(s: seq<ArcId>): set<ArcId> {
    set a | a in s
  }

  lemma ArcSetMore(s: seq<ArcId>, a: ArcId)
    ensures ArcSet(s + [a]) == ArcSet(s) + {a}
  {}

  lemma BrokenMore(arcs: set<ArcId>, os: seq<ArcOutcome>, o: ArcOutcome)
    ensures BrokenArcs(arcs, os + [o]) == BrokenArcs(arcs, os) + if o.broken && o.arc in arcs then {o.arc} else {}
  {
    var more := os + [o];
    forall a ensures a in BrokenArcs(arcs, more) <==> a in BrokenArcs(arcs, os) || (o.broken && o.arc in arcs && a == o.arc) {
      if a in BrokenArcs(arcs, os) {
        var x :| x in os && x.broken && x.arc in arcs && x.arc == a;
        assert x in more;
      }
      if o.broken && o.arc in arcs && a == o.arc {
        assert o in more;
      }
    }
  }

  lemma RemoveNone(n: Node)
    ensures ArcsRemoved(n, {}) == n
  {}

  lemma RemoveMore(n: Node, gone: set<ArcId>, arc: ArcId)
    ensures ArcsRemoved(ArcsRemoved(n, gone), {arc}) == ArcsRemoved(n, gone + {arc})
  {}
}
