/**
  The Counter service's reservations (`CounterCache` in `crates/ntk-andna/src/counter.rs`): at most
  so many live names for each registrant, and at most so many registrants (NTK_RFC 0007).
 */
module Counter {
  import opened Prelude

  /** A registrant is known by its network position. */
  type Registrant = seq<U32>

  type HostnameHash = seq<int>

  /** The expiry of each reserved name. */
  type Reservations = map<HostnameHash, nat>

  type Ledger = map<Registrant, Reservations>

  datatype Caps = Caps(perRegistrant: nat, registrants: nat)

  datatype CounterRejected = CapExceeded(cap: nat) | TooManyRegistrants(max: nat)

  function LiveNames(hashes: Reservations, now: nat): set<HostnameHash> {
    set h | h in hashes && hashes[h] > now
  }

  function LiveCount(hashes: Reservations, now: nat): nat {
    |LiveNames(hashes, now)|
  }

  function HeldBy(ledger: Ledger, registrant: Registrant): Reservations {
    if registrant in ledger then ledger[registrant] else map[]
  }

  predicate Tracks(ledger: Ledger, registrant: Registrant, caps: Caps) {
    registrant in ledger || |ledger| < caps.registrants
  }

  /** There is room for the name, or the registrant holds it already. */
  predicate HasRoom(hashes: Reservations, hash: HostnameHash, now: nat, caps: Caps) {
    hash in LiveNames(hashes, now) || LiveCount(hashes, now) < caps.perRegistrant
  }

  /** A reservation. A registrant refused for its cap is tracked all the same. */
  function AfterReserve(ledger: Ledger, registrant: Registrant, hash: HostnameHash, now: nat, ttl: nat, caps: Caps): Ledger {
    var hashes := HeldBy(ledger, registrant);
    if !Tracks(ledger, registrant, caps) then ledger
    else if !HasRoom(hashes, hash, now, caps) then ledger[registrant := hashes]
    else ledger[registrant := hashes[hash := now + ttl]]
  }

  function Pruned(hashes: Reservations, now: nat): Reservations {
    map h | h in hashes && hashes[h] > now :: hashes[h]
  }

  function AfterPurge(ledger: Ledger, now: nat): Ledger {
    map r | r in ledger && Pruned(ledger[r], now) != map[] :: Pruned(ledger[r], now)
  }

  /** The registrants with live names, and how many each has. */
  function LiveCounts(ledger: Ledger, now: nat): map<Registrant, nat> {
    map r | r in ledger && LiveCount(ledger[r], now) > 0 :: LiveCount(ledger[r], now)
  }

  class CounterCache {
    var byRegistrant: Ledger

    constructor ()
      ensures byRegistrant == map[]
    {
      byRegistrant := map[];
    }

    /** `try_reserve`. */
    method TryReserve(registrant: Registrant, hash: HostnameHash, now: nat, ttl: nat, caps: Caps)
      returns (r: Result<nat, CounterRejected>)
      modifies this
      ensures byRegistrant == AfterReserve(old(byRegistrant), registrant, hash, now, ttl, caps)
      ensures r.Ok? <==>
        && Tracks(old(byRegistrant), registrant, caps)
        && HasRoom(HeldBy(old(byRegistrant), registrant), hash, now, caps)
      ensures r.Ok? ==>
        registrant in byRegistrant && r.value == LiveCount(byRegistrant[registrant], now)
      ensures r.Err? ==>
        r.error == (if Tracks(old(byRegistrant), registrant, caps)
                    then CapExceeded(caps.perRegistrant) else TooManyRegistrants(caps.registrants))
    {
      if registrant !in byRegistrant && |byRegistrant| >= caps.registrants {
        return Err(TooManyRegistrants(caps.registrants));
      }
      if registrant !in byRegistrant {
        byRegistrant := byRegistrant[registrant := map[]];
      }
      var hashes := byRegistrant[registrant];
      var isLiveRenewal := hash in hashes && hashes[hash] > now;
      if !isLiveRenewal && LiveCount(hashes, now) >= caps.perRegistrant {
        assert byRegistrant == old(byRegistrant)[registrant := hashes];
        return Err(CapExceeded(caps.perRegistrant));
      }
      hashes := hashes[hash := now + ttl];
      byRegistrant := byRegistrant[registrant := hashes];
      assert byRegistrant == old(byRegistrant)[registrant := hashes];
      return Ok(LiveCount(hashes, now));
    }

    /** `purge_expired`: expired names go first, then the registrants left without any. */
    method PurgeExpired(now: nat)
      modifies this
      ensures byRegistrant == AfterPurge(old(byRegistrant), now)
      ensures LiveCounts(byRegistrant, now) == LiveCounts(old(byRegistrant), now)
    {
      byRegistrant := map r | r in byRegistrant :: Pruned(byRegistrant[r], now);
      byRegistrant := map r | r in byRegistrant && byRegistrant[r] != map[] :: byRegistrant[r];
      PurgeKeepsLive(old(byRegistrant), now, now);
    }
  }

  // ---------------------------------------------------------------- what purging keeps

  lemma PrunedLive(hashes: Reservations, now: nat, t: nat)
    requires now <= t
    ensures LiveNames(Pruned(hashes, now), t) == LiveNames(hashes, t)
  {}

  /** Purging changes no live count, now or later. */
  lemma PurgeKeepsLive(ledger: Ledger, now: nat, t: nat)
    requires now <= t
    ensures LiveCounts(AfterPurge(ledger, now), t) == LiveCounts(ledger, t)
  {
    var after := AfterPurge(ledger, now);
    forall r | r in ledger
      ensures LiveCount(HeldBy(after, r), t) == LiveCount(ledger[r], t)
    {
      PrunedLive(ledger[r], now, t);
      if r !in after {
        assert LiveNames(map[], t) == {};
      }
    }
    assert forall r :: r in after ==> r in ledger;
    assert LiveNames(map[], t) == {};
    forall r | r in ledger ensures r in LiveCounts(after, t) <==> r in LiveCounts(ledger, t) {
      assert LiveCount(HeldBy(after, r), t) == LiveCount(ledger[r], t);
    }
  }

  // ---------------------------------------------------------------- the caps

  /** No registrant has more live names than its cap, and no more registrants are tracked than theirs. */
  predicate WithinCaps(ledger: Ledger, caps: Caps, now: nat) {
    && |ledger| <= caps.registrants
    && forall r :: r in ledger ==> LiveCount(ledger[r], now) <= caps.perRegistrant
  }

  lemma LiveShrinks(hashes: Reservations, now: nat, t: nat)
    requires now <= t
    ensures LiveCount(hashes, t) <= LiveCount(hashes, now)
  {
    Fewer(LiveNames(hashes, t), LiveNames(hashes, now));
  }

  /** Time alone breaks no cap. */
  lemma CapsPersist(ledger: Ledger, caps: Caps, now: nat, t: nat)
    requires now <= t && WithinCaps(ledger, caps, now)
    ensures WithinCaps(ledger, caps, t)
  {
    forall r | r in ledger ensures LiveCount(ledger[r], t) <= caps.perRegistrant {
      LiveShrinks(ledger[r], now, t);
    }
  }

  lemma AddedName(hashes: Reservations, hash: HostnameHash, now: nat, ttl: nat, caps: Caps)
    requires HasRoom(hashes, hash, now, caps) && LiveCount(hashes, now) <= caps.perRegistrant
    ensures LiveCount(hashes[hash := now + ttl], now) <= caps.perRegistrant
  {
    var before, after := LiveNames(hashes, now), LiveNames(hashes[hash := now + ttl], now);
    if hash in before {
      Fewer(after, before);
    } else {
      Fewer(after, before + {hash});
    }
  }

  lemma ReserveKeepsCaps(
    ledger: Ledger, registrant: Registrant, hash: HostnameHash, now: nat, ttl: nat, caps: Caps)
    requires WithinCaps(ledger, caps, now)
    ensures WithinCaps(AfterReserve(ledger, registrant, hash, now, ttl, caps), caps, now)
  {
    var hashes := HeldBy(ledger, registrant);
    var after := AfterReserve(ledger, registrant, hash, now, ttl, caps);
    assert LiveNames(map[], now) == {};
    if HasRoom(hashes, hash, now, caps) {
      AddedName(hashes, hash, now, ttl, caps);
    }
    if registrant in ledger {
      Fewer(after.Keys, ledger.Keys);
    } else {
      Fewer(after.Keys, ledger.Keys + {registrant});
    }
  }

  lemma PurgeKeepsCaps(ledger: Ledger, now: nat, caps: Caps)
    requires WithinCaps(ledger, caps, now)
    ensures WithinCaps(AfterPurge(ledger, now), caps, now)
  {
    var after := AfterPurge(ledger, now);
    Fewer(after.Keys, ledger.Keys);
    forall r | r in after ensures LiveCount(after[r], now) <= caps.perRegistrant {
      PrunedLive(ledger[r], now, now);
    }
  }

  // ---------------------------------------------------------------- what a reservation gives

  /** The registrant holds the name until at least this time. */
  predicate Reserved(ledger: Ledger, registrant: Registrant, hash: HostnameHash, until: nat) {
    registrant in ledger && hash in ledger[registrant] && ledger[registrant][hash] >= until
  }

  datatype Command = Reserve(registrant: Registrant, hash: HostnameHash, at: nat) | Purge(at: nat)

  function Step(ledger: Ledger, cmd: Command, ttl: nat, caps: Caps): Ledger {
    match cmd
    case Reserve(registrant, hash, at) => AfterReserve(ledger, registrant, hash, at, ttl, caps)
    case Purge(at) => AfterPurge(ledger, at)
  }

  function After(ledger: Ledger, cmds: seq<Command>, ttl: nat, caps: Caps): Ledger {
    if cmds == [] then ledger else Step(After(ledger, cmds[..|cmds| - 1], ttl, caps), cmds[|cmds| - 1], ttl, caps)
  }

  lemma StepKeepsReserved(
    ledger: Ledger, cmd: Command, ttl: nat, caps: Caps, registrant: Registrant, hash: HostnameHash, until: nat)
    requires Reserved(ledger, registrant, hash, until) && cmd.at < until <= cmd.at + ttl
    ensures Reserved(Step(ledger, cmd, ttl, caps), registrant, hash, until)
  {
    if cmd.Purge? {
      var kept := Pruned(ledger[registrant], cmd.at);
      assert hash in kept;
    }
  }

  /** An accepted reservation is held, and counts, until its time to live is over, whatever other commands
      come in that time. */
  lemma {:induction false} ReservationHolds(
    ledger: Ledger, registrant: Registrant, hash: HostnameHash, now: nat, ttl: nat, caps: Caps, between: seq<Command>, t: nat)
    requires Tracks(ledger, registrant, caps) && HasRoom(HeldBy(ledger, registrant), hash, now, caps)
    requires now <= t < now + ttl && forall i :: 0 <= i < |between| ==> now <= between[i].at <= t
    ensures
      var later := After(AfterReserve(ledger, registrant, hash, now, ttl, caps), between, ttl, caps);
      && Reserved(later, registrant, hash, now + ttl)
      && hash in LiveNames(later[registrant], t)
      && registrant in LiveCounts(later, t)
    decreases |between|
  {
    if between == [] {
      CountsOne(AfterReserve(ledger, registrant, hash, now, ttl, caps), registrant, hash, t);
    } else {
      var n := |between| - 1;
      ReservationHolds(ledger, registrant, hash, now, ttl, caps, between[..n], t);
      var before := After(AfterReserve(ledger, registrant, hash, now, ttl, caps), between[..n], ttl, caps);
      StepKeepsReserved(before, between[n], ttl, caps, registrant, hash, now + ttl);
      CountsOne(Step(before, between[n], ttl, caps), registrant, hash, t);
    }
  }

  lemma CountsOne(ledger: Ledger, registrant: Registrant, hash: HostnameHash, t: nat)
    requires registrant in ledger && hash in LiveNames(ledger[registrant], t)
    ensures registrant in LiveCounts(ledger, t)
  {
    Fewer({hash}, LiveNames(ledger[registrant], t));
  }

  lemma NameCounts(held: Reservations, hash: HostnameHash, now: nat, until: nat)
    requires until > now
    ensures LiveCount(held[hash := until], now) == LiveCount(held, now) + (if hash in LiveNames(held, now) then 0 else 1)
  {
    var names := LiveNames(held, now);
    assert LiveNames(held[hash := until], now) == names + {hash};
    if hash in names {
      assert names + {hash} == names;
    }
  }

  /** A new name adds one to the count of its registrant, a renewed one nothing, and no other count changes. */
  lemma ReservationCounts(
    ledger: Ledger, registrant: Registrant, hash: HostnameHash, now: nat, ttl: nat, caps: Caps, other: Registrant)
    requires Tracks(ledger, registrant, caps) && HasRoom(HeldBy(ledger, registrant), hash, now, caps) && ttl > 0
    ensures
      var held := HeldBy(ledger, registrant);
      var after := AfterReserve(ledger, registrant, hash, now, ttl, caps);
      && LiveCount(HeldBy(after, registrant), now)
         == LiveCount(held, now) + (if hash in LiveNames(held, now) then 0 else 1)
      && (other != registrant ==> HeldBy(after, other) == HeldBy(ledger, other))
      && registrant in after
  {
    NameCounts(HeldBy(ledger, registrant), hash, now, now + ttl);
  }

  /** After a purge nothing expired and nobody without a live name is left. */
  lemma PurgeLeavesLive(ledger: Ledger, now: nat, registrant: Registrant)
    requires registrant in AfterPurge(ledger, now)
    ensures
      var held := AfterPurge(ledger, now)[registrant];
      held != map[] && held.Keys == LiveNames(ledger[registrant], now) && forall h :: h in held ==> held[h] > now
  {}
}
