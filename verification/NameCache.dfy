/**
  The registration policy of a hash-node (`Cache` in `crates/ntk-andna/src/record.rs`): who may take
  or renew a name, for how long, and why no signed request is accepted twice.
 */
module NameCache {
  import opened Prelude
  import opened Registration
  import SigningBytes
  import opened Snsd

  const MAX_TIMESTAMP_SKEW_SECS: nat := 3600

  type Signature = seq<Byte>

  /** Signature verification: any predicate of the key, the signed bytes and the signature. */
  type Verifier = (KeyBytes, seq<Byte>, Signature) -> bool

  datatype Request = Request(claim: Claim, signature: Signature)

  datatype HostedRecord = HostedRecord(
    ownerKey: KeyBytes, sequence: nat, registeredAt: nat, renewedAt: nat, expiresAt: nat, snsd: Table)

  type Records = map<Hostname, HostedRecord>

  /** The limits a node is configured with. */
  datatype Limits = Limits(ttl: nat, minRenewalInterval: nat, maxPerService: nat, maxTotal: nat, maxHosted: nat)

  datatype Outcome = Registered(expiresAt: nat) | Renewed(expiresAt: nat)

  datatype Rejected =
    | InvalidSignature
    | ReservedServiceZero
    | WeightTooLarge(weight: Byte)
    | StaleTimestamp(timestamp: nat, now: nat)
    | HostCapacityExceeded(cap: nat)
    | StaleSequence(given: nat, stored: nat)
    | RenewalTooSoon(retryAfter: nat)
    | OwnedByOther
    | SnsdCap(error: CapError)

  predicate IsExpired(r: HostedRecord, now: nat) {
    now >= r.expiresAt
  }

  predicate Live(records: Records, h: Hostname, now: nat) {
    h in records && !IsExpired(records[h], now)
  }

  function AbsDiff(a: nat, b: nat): nat {
    if a >= b then a - b else b - a
  }

  function SaturatingAdd(a: nat, b: nat): nat {
    Min(a + b, MAX_U64)
  }

  // ---------------------------------------------------------------- the policy

  predicate Verifies(verify: Verifier, req: Request) {
    verify(req.claim.ownerKey, SigningBytes.Encode(req.claim), req.signature)
  }

  /** No explicit zero record, and a weight NTK_RFC 0009 allows. */
  predicate WellFormed(c: Claim) {
    (forall r :: r in c.snsdRecords ==> r.service != ZERO_SERVICE) && c.zeroWeight <= MAX_WEIGHT
  }

  predicate Timely(c: Claim, now: nat) {
    AbsDiff(c.timestamp, now) <= MAX_TIMESTAMP_SKEW_SECS
  }

  /** The store lets the claim in: a new name while there is room, an expired name to anyone, a live
      name only to its owner, with a higher sequence and after the renewal interval. */
  predicate Admits(records: Records, c: Claim, now: nat, limits: Limits) {
    if c.hostname !in records then |records| < limits.maxHosted
    else
      var r := records[c.hostname];
      || IsExpired(r, now)
      || (&& r.ownerKey == c.ownerKey
          && c.sequence > r.sequence
          && now >= SaturatingAdd(r.renewedAt, limits.minRenewalInterval))
  }

  /** The table of an accepted claim. */
  function ClaimedTable(c: Claim, limits: Limits): (Table, Option<CapError>) {
    InsertedAll(
      Table(map[ZERO_SERVICE := [ZeroRecord(c.ownerNaddr, c.zeroPriority, c.zeroWeight)]], 1),
      c.snsdRecords, limits.maxPerService, limits.maxTotal)
  }

  /** The record an accepted claim leaves: a renewal keeps the date of the first registration. */
  function Entry(records: Records, c: Claim, now: nat, limits: Limits): HostedRecord {
    var registeredAt := if Live(records, c.hostname, now) then records[c.hostname].registeredAt else now;
    HostedRecord(c.ownerKey, c.sequence, registeredAt, now, now + limits.ttl, ClaimedTable(c, limits).0)
  }

  /** `signed` is the verdict on the signature. */
  predicate Accepts(records: Records, c: Claim, signed: bool, now: nat, limits: Limits) {
    && signed
    && WellFormed(c) && Timely(c, now)
    && WithinCaps(c.snsdRecords, limits.maxPerService, limits.maxTotal)
    && Admits(records, c, now, limits)
  }

  function AfterRegister(records: Records, c: Claim, signed: bool, now: nat, limits: Limits): Records {
    if Accepts(records, c, signed, now, limits) then records[c.hostname := Entry(records, c, now, limits)] else records
  }

  function ExpiredNames(records: Records, now: nat): set<Hostname> {
    set h | h in records && IsExpired(records[h], now)
  }

  function AfterPurge(records: Records, now: nat): Records {
    records - ExpiredNames(records, now)
  }

  // ---------------------------------------------------------------- the cache

  class Cache {
    const verify: Verifier
    var records: Records

    constructor (verify: Verifier)
      ensures this.verify == verify && records == map[]
    {
      this.verify := verify;
      records := map[];
    }

    /** `register`. */
    method Register(req: Request, now: nat, limits: Limits) returns (r: Result<Outcome, Rejected>)
      modifies this`records
      ensures r.Ok? <==> Accepts(old(records), req.claim, Verifies(verify, req), now, limits)
      ensures records == AfterRegister(old(records), req.claim, Verifies(verify, req), now, limits)
      ensures r.Ok? ==>
        r.value == (if Live(old(records), req.claim.hostname, now)
                    then Renewed(now + limits.ttl) else Registered(now + limits.ttl))
      ensures r.Err? ==> Blames(old(records), req, now, limits, verify, r.error)
    {
      var rejected := CheckRequest(req, now);
      if rejected.Some? {
        return Err(rejected.value);
      }
      var freshSlot;
      freshSlot, rejected := CheckSlot(req.claim, now, limits);
      if rejected.Some? {
        return Err(rejected.value);
      }
      var snsd, refused := BuildTable(req.claim, limits);
      if refused.Some? {
        return Err(SnsdCap(refused.value));
      }
      var outcome := Store(req.claim, now, limits, freshSlot, snsd);
      return Ok(outcome);
    }

    /** The update of an accepted request. */
    method Store(c: Claim, now: nat, limits: Limits, freshSlot: bool, snsd: Table) returns (outcome: Outcome)
      requires Admits(records, c, now, limits)
      requires freshSlot == !Live(records, c.hostname, now) && snsd == ClaimedTable(c, limits).0
      modifies this`records
      ensures records == old(records)[c.hostname := Entry(old(records), c, now, limits)]
      ensures outcome == if freshSlot then Registered(now + limits.ttl) else Renewed(now + limits.ttl)
    {
      var expiresAt := now + limits.ttl;
      if freshSlot {
        records := records[c.hostname := HostedRecord(c.ownerKey, c.sequence, now, now, expiresAt, snsd)];
        return Registered(expiresAt);
      }
      var record := records[c.hostname];
      record := record.(sequence := c.sequence);
      record := record.(renewedAt := now);
      record := record.(expiresAt := expiresAt);
      record := record.(snsd := snsd);
      records := records[c.hostname := record];
      return Renewed(expiresAt);
    }

    /** The checks of the request itself. */
    method CheckRequest(req: Request, now: nat) returns (rejected: Option<Rejected>)
      ensures rejected.None? <==> Verifies(verify, req) && WellFormed(req.claim) && Timely(req.claim, now)
      ensures rejected.Some? ==> BlamesRequest(req, now, verify, rejected.value)
    {
      var c := req.claim;
      var bytes := SigningBytes.BuildSigningBytes(c);
      if !verify(c.ownerKey, bytes, req.signature) {
        return Some(InvalidSignature);
      }
      if exists r :: r in c.snsdRecords && r.service == ZERO_SERVICE {
        return Some(ReservedServiceZero);
      }
      if c.zeroWeight > MAX_WEIGHT {
        return Some(WeightTooLarge(c.zeroWeight));
      }
      if AbsDiff(c.timestamp, now) > MAX_TIMESTAMP_SKEW_SECS {
        return Some(StaleTimestamp(c.timestamp, now));
      }
      return None;
    }

    /** The checks against the record stored under the name. */
    method CheckSlot(c: Claim, now: nat, limits: Limits) returns (freshSlot: bool, rejected: Option<Rejected>)
      ensures rejected.None? <==> Admits(records, c, now, limits)
      ensures rejected.None? ==> freshSlot == !Live(records, c.hostname, now)
      ensures rejected.Some? ==> BlamesSlot(records, c, now, limits, rejected.value)
    {
      if c.hostname !in records && |records| >= limits.maxHosted {
        return true, Some(HostCapacityExceeded(limits.maxHosted));
      }
      freshSlot := c.hostname !in records
        || IsExpired(records[c.hostname], now) || records[c.hostname].ownerKey != c.ownerKey;
      if !freshSlot {
        var existing := records[c.hostname];
        if c.sequence <= existing.sequence {
          return freshSlot, Some(StaleSequence(c.sequence, existing.sequence));
        }
        var minNext := SaturatingAdd(existing.renewedAt, limits.minRenewalInterval);
        if now < minNext {
          return freshSlot, Some(RenewalTooSoon(minNext - now));
        }
      } else if c.hostname in records
        && !IsExpired(records[c.hostname], now) && records[c.hostname].ownerKey != c.ownerKey
      {
        return freshSlot, Some(OwnedByOther);
      }
      return freshSlot, None;
    }

    /** `purge_expired`. */
    method PurgeExpired(now: nat) returns (freed: set<Hostname>)
      modifies this`records
      ensures freed == ExpiredNames(old(records), now)
      ensures records == AfterPurge(old(records), now)
    {
      freed := set h | h in records && IsExpired(records[h], now);
      var pending := freed;
      while pending != {}
        invariant pending <= freed
        invariant records == old(records) - (freed - pending)
        decreases |pending|
      {
        var h :| h in pending;
        records := records - {h};
        pending := pending - {h};
      }
    }

    /** `resolve`: nothing for an unknown or expired name. */
    method ResolveName(h: Hostname, service: U16, now: nat, rng: nat -> nat) returns (found: seq<SnsdRecord>)
      ensures !Live(records, h, now) ==> found == []
      ensures Live(records, h, now) ==>
        multiset(found) == multiset(Enabled(Chosen(records[h].snsd, service))) && Descending(found)
    {
      if h in records && !IsExpired(records[h], now) {
        found := Resolve(records[h].snsd, service, rng);
      } else {
        found := [];
      }
    }
  }

  /** The insertion loop, up to the first refused record. */
  method InsertAll(table: SnsdTable, rs: seq<SnsdRecord>, limits: Limits) returns (refused: Option<CapError>)
    requires Counted(table.Value())
    modifies table
    ensures (table.Value(), refused) == InsertedAll(old(table.Value()), rs, limits.maxPerService, limits.maxTotal)
  {
    refused := None;
    ghost var start := table.Value();
    for k := 0 to |rs|
      invariant Counted(table.Value())
      invariant (table.Value(), None) == InsertedAll(start, rs[..k], limits.maxPerService, limits.maxTotal)
    {
      assert rs[..k + 1][..k] == rs[..k];
      refused := table.Insert(rs[k], limits.maxPerService, limits.maxTotal);
      if refused.Some? {
        InsertedAllStops(start, rs, k + 1, limits.maxPerService, limits.maxTotal);
        return;
      }
    }
    assert rs[..|rs|] == rs;
    return None;
  }

  /** The table built for a claim; it is complete exactly when the claim is within the caps. */
  method BuildTable(c: Claim, limits: Limits) returns (t: Table, refused: Option<CapError>)
    requires WellFormed(c)
    ensures (t, refused) == ClaimedTable(c, limits)
    ensures refused.None? <==> WithinCaps(c.snsdRecords, limits.maxPerService, limits.maxTotal)
  {
    ghost var zero := ZeroRecord(c.ownerNaddr, c.zeroPriority, c.zeroWeight);
    InsertedAllIff(zero, c.snsdRecords, limits.maxPerService, limits.maxTotal);
    var table := new SnsdTable();
    table.SetZeroRecord(c.ownerNaddr, c.zeroPriority, c.zeroWeight);
    ghost var empty: Buckets := map[];
    SizeUpdate(empty, ZERO_SERVICE, [zero]);
    assert empty - {ZERO_SERVICE} == empty;
    assert table.byService == map[ZERO_SERVICE := [zero]];
    refused := InsertAll(table, c.snsdRecords, limits);
    t := table.Value();
  }

  lemma {:induction false} InsertedAllStops(t: Table, rs: seq<SnsdRecord>, k: nat, maxPerService: nat, maxTotal: nat)
    requires k <= |rs| && InsertedAll(t, rs[..k], maxPerService, maxTotal).1.Some?
    ensures InsertedAll(t, rs, maxPerService, maxTotal) == InsertedAll(t, rs[..k], maxPerService, maxTotal)
    decreases |rs| - k
  {
    if k < |rs| {
      assert rs[..k + 1][..k] == rs[..k];
      InsertedAllStops(t, rs, k + 1, maxPerService, maxTotal);
    } else {
      assert rs[..k] == rs;
    }
  }

  // Each rejection names a condition that fails.

  predicate BlamesRequest(req: Request, now: nat, verify: Verifier, e: Rejected) {
    var c := req.claim;
    match e
    case InvalidSignature => !Verifies(verify, req)
    case ReservedServiceZero => exists r :: r in c.snsdRecords && r.service == ZERO_SERVICE
    case WeightTooLarge(w) => w == c.zeroWeight > MAX_WEIGHT
    case StaleTimestamp(ts, at) => ts == c.timestamp && at == now && !Timely(c, now)
    case _ => false
  }

  predicate BlamesSlot(records: Records, c: Claim, now: nat, limits: Limits, e: Rejected) {
    match e
    case HostCapacityExceeded(cap) => cap == limits.maxHosted <= |records| && c.hostname !in records
    case StaleSequence(given, stored) =>
      Live(records, c.hostname, now) && given == c.sequence <= stored == records[c.hostname].sequence
    case RenewalTooSoon(wait) =>
      && Live(records, c.hostname, now) && wait > 0
      && now + wait == SaturatingAdd(records[c.hostname].renewedAt, limits.minRenewalInterval)
    case OwnedByOther => Live(records, c.hostname, now) && records[c.hostname].ownerKey != c.ownerKey
    case _ => false
  }

  predicate Blames(records: Records, req: Request, now: nat, limits: Limits, verify: Verifier, e: Rejected) {
    || BlamesRequest(req, now, verify, e)
    || BlamesSlot(records, req.claim, now, limits, e)
    || (e.SnsdCap? && !WithinCaps(req.claim.snsdRecords, limits.maxPerService, limits.maxTotal))
  }

  /** What an accepted claim resolves to: its own records of the service, otherwise its address. */
  lemma RegisteredResolves(records: Records, c: Claim, now: nat, limits: Limits, service: U16)
    requires Accepts(records, c, true, now, limits)
    ensures
      var after := AfterRegister(records, c, true, now, limits);
      && c.hostname in after
      && Chosen(after[c.hostname].snsd, service) ==
         if OfService(c.snsdRecords, service) != [] then OfService(c.snsdRecords, service)
         else [ZeroRecord(c.ownerNaddr, c.zeroPriority, c.zeroWeight)]
  {
    InsertedAllIff(ZeroRecord(c.ownerNaddr, c.zeroPriority, c.zeroWeight), c.snsdRecords,
                   limits.maxPerService, limits.maxTotal);
    if service == ZERO_SERVICE {
      NoneOfService(c.snsdRecords, ZERO_SERVICE);
    }
  }

  lemma {:induction false} NoneOfService(rs: seq<SnsdRecord>, service: U16)
    requires forall r :: r in rs ==> r.service != service
    ensures OfService(rs, service) == []
  {
    if rs != [] {
      NoneOfService(rs[..|rs| - 1], service);
    }
  }

  // ---------------------------------------------------------------- runs

  /** A registration with the verdict on its signature, or a purge. */
  datatype Command = Register(claim: Claim, signed: bool, at: nat) | Purge(at: nat)

  function Step(records: Records, cmd: Command, limits: Limits): Records {
    match cmd
    case Register(claim, signed, at) => AfterRegister(records, claim, signed, at, limits)
    case Purge(at) => AfterPurge(records, at)
  }

  function After(records: Records, cmds: seq<Command>, limits: Limits): Records {
    if cmds == [] then records
    else Step(After(records, cmds[..|cmds| - 1], limits), cmds[|cmds| - 1], limits)
  }

  lemma AfterStep(cmds: seq<Command>, i: nat, limits: Limits)
    requires i < |cmds|
    ensures After(map[], cmds[..i + 1], limits) ==
      Step(After(map[], cmds[..i], limits), cmds[i], limits)
  {
    assert cmds[..i + 1][..i] == cmds[..i];
  }

  lemma AfterAppend(cmds: seq<Command>, cmd: Command, limits: Limits)
    ensures After(map[], cmds + [cmd], limits) == Step(After(map[], cmds, limits), cmd, limits)
  {
    assert (cmds + [cmd])[..|cmds|] == cmds;
  }

  /** The clock never goes back. */
  predicate Chronological(cmds: seq<Command>) {
    forall i, j :: 0 <= i < j < |cmds| ==> cmds[i].at <= cmds[j].at
  }

  /** Command `i` of a run is a registration that is accepted. */
  predicate AcceptedAt(cmds: seq<Command>, i: nat, limits: Limits)
    requires i < |cmds|
  {
    && cmds[i].Register?
    && Accepts(After(map[], cmds[..i], limits), cmds[i].claim, cmds[i].signed, cmds[i].at, limits)
  }

  /** A name in the hands of `owner`, from this sequence number on and until this time. */
  datatype Hold = Hold(hostname: Hostname, owner: KeyBytes, sequence: nat, until: nat)

  predicate Held(records: Records, hold: Hold) {
    && hold.hostname in records
    && records[hold.hostname].ownerKey == hold.owner
    && records[hold.hostname].sequence >= hold.sequence
    && records[hold.hostname].expiresAt >= hold.until
  }

  function HoldOf(c: Claim, at: nat, ttl: nat): Hold {
    Hold(c.hostname, c.ownerKey, c.sequence, at + ttl)
  }

  /** A live name keeps its owner, and an accepted renewal strictly raises its sequence. */
  lemma StepKeepsOwner(records: Records, cmd: Command, h: Hostname, limits: Limits)
    requires Live(records, h, cmd.at)
    ensures
      var after := Step(records, cmd, limits);
      && h in after
      && after[h].ownerKey == records[h].ownerKey
      && (after[h] == records[h] || after[h].sequence > records[h].sequence)
      && (cmd.Register? && cmd.claim.hostname == h && Accepts(records, cmd.claim, cmd.signed, cmd.at, limits) ==>
        after[h].sequence == cmd.claim.sequence > records[h].sequence && cmd.claim.ownerKey == records[h].ownerKey)
  {}

  /** A time before the hold ends, and not before it began. */
  predicate During(at: nat, hold: Hold, ttl: nat) {
    at < hold.until <= at + ttl
  }

  lemma StepKeepsHeld(records: Records, cmd: Command, hold: Hold, limits: Limits)
    requires Held(records, hold) && During(cmd.at, hold, limits.ttl)
    ensures Held(Step(records, cmd, limits), hold)
  {
    StepKeepsOwner(records, cmd, hold.hostname, limits);
  }

  /** While its time lasts, a name stays with its owner through any run. */
  lemma {:induction false} RunKeepsHeld(records: Records, cmds: seq<Command>, hold: Hold, limits: Limits)
    requires Held(records, hold)
    requires forall k :: 0 <= k < |cmds| ==> During(cmds[k].at, hold, limits.ttl)
    ensures Held(After(records, cmds, limits), hold)
  {
    if cmds != [] {
      var n := |cmds| - 1;
      RunKeepsHeld(records, cmds[..n], hold, limits);
      StepKeepsHeld(After(records, cmds[..n], limits), cmds[n], hold, limits);
    }
  }

  lemma {:induction false} AfterSplit(records: Records, a: seq<Command>, b: seq<Command>, limits: Limits)
    ensures After(records, a + b, limits) == After(After(records, a, limits), b, limits)
  {
    if b == [] {
      assert a + b == a;
    } else {
      var n := |b| - 1;
      AfterSplit(records, a, b[..n], limits);
      assert (a + b)[..|a + b| - 1] == a + b[..n];
    }
  }

  lemma HeldAcross(a: seq<Command>, b: seq<Command>, hold: Hold, limits: Limits)
    requires Held(After(map[], a, limits), hold)
    requires forall k :: 0 <= k < |b| ==> During(b[k].at, hold, limits.ttl)
    ensures Held(After(map[], a + b, limits), hold)
  {
    AfterSplit(map[], a, b, limits);
    RunKeepsHeld(After(map[], a, limits), b, hold, limits);
  }

  lemma HeldUntil(cmds: seq<Command>, i: nat, j: nat, hold: Hold, limits: Limits)
    requires i <= j <= |cmds|
    requires Held(After(map[], cmds[..i], limits), hold)
    requires forall k :: i <= k < j ==> During(cmds[k].at, hold, limits.ttl)
    ensures Held(After(map[], cmds[..j], limits), hold)
  {
    HeldAcross(cmds[..i], cmds[i..j], hold, limits);
    assert cmds[..i] + cmds[i..j] == cmds[..j];
  }

  lemma EntryIsHeld(records: Records, c: Claim, signed: bool, at: nat, limits: Limits)
    requires Accepts(records, c, signed, at, limits)
    ensures Held(AfterRegister(records, c, signed, at, limits), HoldOf(c, at, limits.ttl))
  {}

  lemma AcceptedIsHeld(cmds: seq<Command>, i: nat, limits: Limits)
    requires i < |cmds| && AcceptedAt(cmds, i, limits)
    ensures Held(After(map[], cmds[..i + 1], limits), HoldOf(cmds[i].claim, cmds[i].at, limits.ttl))
  {
    AfterStep(cmds, i, limits);
    EntryIsHeld(After(map[], cmds[..i], limits), cmds[i].claim, cmds[i].signed, cmds[i].at, limits);
  }

  /** The name is live at every command after `i`, up to and including `j`. */
  predicate LiveThrough(cmds: seq<Command>, h: Hostname, i: nat, j: nat, limits: Limits)
    requires i <= j < |cmds|
  {
    forall k :: i < k <= j ==> Live(After(map[], cmds[..k], limits), h, cmds[k].at)
  }

  /** The record of a name kept live: its owner, and a sequence that never falls. */
  predicate OwnedSince(records: Records, c: Claim) {
    c.hostname in records && records[c.hostname].ownerKey == c.ownerKey && records[c.hostname].sequence >= c.sequence
  }

  lemma OwnedStep(cmds: seq<Command>, k: nat, c: Claim, limits: Limits)
    requires k < |cmds| && OwnedSince(After(map[], cmds[..k], limits), c)
    requires Live(After(map[], cmds[..k], limits), c.hostname, cmds[k].at)
    ensures OwnedSince(After(map[], cmds[..k + 1], limits), c)
  {
    StepKeepsOwner(After(map[], cmds[..k], limits), cmds[k], c.hostname, limits);
    AfterStep(cmds, k, limits);
  }

  lemma {:induction false} OwnedWhileLive(cmds: seq<Command>, i: nat, j: nat, c: Claim, limits: Limits)
    requires i < j < |cmds| && OwnedSince(After(map[], cmds[..i + 1], limits), c)
    requires LiveThrough(cmds, c.hostname, i, j, limits)
    ensures OwnedSince(After(map[], cmds[..j], limits), c)
    decreases j
  {
    if i + 1 < j {
      OwnedWhileLive(cmds, i, j - 1, c, limits);
      OwnedStep(cmds, j - 1, c, limits);
    }
  }

  /** However often it is renewed, a name kept live stays with the owner that registered it. */
  lemma LiveKeepsOwner(cmds: seq<Command>, i: nat, j: nat, limits: Limits)
    requires i < j < |cmds| && AcceptedAt(cmds, i, limits)
    requires LiveThrough(cmds, cmds[i].claim.hostname, i, j, limits)
    ensures OwnedSince(After(map[], cmds[..j], limits), cmds[i].claim)
  {
    AcceptedIsHeld(cmds, i, limits);
    OwnedWhileLive(cmds, i, j, cmds[i].claim, limits);
  }

  lemma LiveRestricts(records: Records, c: Claim, signed: bool, at: nat, first: Claim, limits: Limits)
    requires OwnedSince(records, first) && c.hostname == first.hostname && Live(records, c.hostname, at)
    requires Accepts(records, c, signed, at, limits)
    ensures c.ownerKey == first.ownerKey && c.sequence > first.sequence
  {}

  /** Accepted registrations of a name that stays live come from one owner with strictly increasing
      sequence numbers, over any run and any number of renewals. */
  lemma OwnerAndSequence(cmds: seq<Command>, i: nat, j: nat, limits: Limits)
    requires i < j < |cmds| && AcceptedAt(cmds, i, limits) && AcceptedAt(cmds, j, limits)
    requires cmds[i].claim.hostname == cmds[j].claim.hostname
    requires LiveThrough(cmds, cmds[i].claim.hostname, i, j, limits)
    ensures cmds[i].claim.ownerKey == cmds[j].claim.ownerKey
    ensures cmds[i].claim.sequence < cmds[j].claim.sequence
  {
    LiveKeepsOwner(cmds, i, j, limits);
    assert Live(After(map[], cmds[..j], limits), cmds[i].claim.hostname, cmds[j].at);
    LiveRestricts(After(map[], cmds[..j], limits), cmds[j].claim, cmds[j].signed, cmds[j].at, cmds[i].claim, limits);
  }

  /** A registered name is live for at least its time to live. */
  lemma LiveForTtl(cmds: seq<Command>, i: nat, j: nat, limits: Limits)
    requires Chronological(cmds) && i <= j < |cmds| && AcceptedAt(cmds, i, limits)
    requires cmds[j].at < cmds[i].at + limits.ttl
    ensures LiveThrough(cmds, cmds[i].claim.hostname, i, j, limits)
  {
    var hold := HoldOf(cmds[i].claim, cmds[i].at, limits.ttl);
    AcceptedIsHeld(cmds, i, limits);
    forall k | i < k <= j ensures Live(After(map[], cmds[..k], limits), cmds[i].claim.hostname, cmds[k].at) {
      assert cmds[k].at <= cmds[j].at;
      HeldUntil(cmds, i + 1, k, hold, limits);
    }
  }

  /** With a time to live of more than twice the allowed skew, no run accepts one claim twice. */
  lemma NoReplay(cmds: seq<Command>, i: nat, j: nat, limits: Limits)
    requires limits.ttl > 2 * MAX_TIMESTAMP_SKEW_SECS
    requires Chronological(cmds) && i < j < |cmds|
    requires AcceptedAt(cmds, i, limits) && AcceptedAt(cmds, j, limits)
    ensures cmds[i].claim != cmds[j].claim
  {
    if cmds[i].claim == cmds[j].claim {
      LiveForTtl(cmds, i, j, limits);
      OwnerAndSequence(cmds, i, j, limits);
    }
  }

  /** A claim presented as early as its timestamp allows, and again when its name has expired. */
  function Replay(c: Claim, ttl: nat): seq<Command>
    requires c.timestamp >= MAX_TIMESTAMP_SKEW_SECS
  {
    var early := c.timestamp - MAX_TIMESTAMP_SKEW_SECS;
    [Register(c, true, early), Register(c, true, early + ttl)]
  }

  /** The bound is exact: with any shorter time to live, a node with room for a name accepts twice
      every signed claim it would accept at all. */
  lemma ReplayWhenShort(c: Claim, limits: Limits)
    requires limits.ttl <= 2 * MAX_TIMESTAMP_SKEW_SECS && limits.maxHosted > 0
    requires WellFormed(c) && WithinCaps(c.snsdRecords, limits.maxPerService, limits.maxTotal)
    requires c.timestamp >= MAX_TIMESTAMP_SKEW_SECS
    ensures Chronological(Replay(c, limits.ttl))
    ensures AcceptedAt(Replay(c, limits.ttl), 0, limits) && AcceptedAt(Replay(c, limits.ttl), 1, limits)
  {
    var cmds := Replay(c, limits.ttl);
    assert cmds[..0] == [];
    assert Accepts(map[], c, true, cmds[0].at, limits);
    AfterStep(cmds, 0, limits);
  }

  /** Two accepted registrations of a name that stays live are at least the renewal interval apart. */
  lemma RenewalsAreSpaced(cmds: seq<Command>, i: nat, j: nat, limits: Limits)
    requires Chronological(cmds) && i < j < |cmds| && AcceptedAt(cmds, i, limits) && AcceptedAt(cmds, j, limits)
    requires cmds[i].claim.hostname == cmds[j].claim.hostname
    requires LiveThrough(cmds, cmds[i].claim.hostname, i, j, limits)
    ensures cmds[j].at >= SaturatingAdd(cmds[i].at, limits.minRenewalInterval)
  {
    RenewedFirst(cmds, i, limits);
    RenewedSince(cmds, i + 1, j, cmds[i].claim.hostname, cmds[i].at, limits);
    LiveKeepsOwner(cmds, i, j, limits);
    assert Live(After(map[], cmds[..j], limits), cmds[i].claim.hostname, cmds[j].at);
    SpacedWhileLive(After(map[], cmds[..j], limits), cmds[j].claim, cmds[j].signed, cmds[j].at, cmds[i].at, limits);
  }

  lemma SpacedWhileLive(records: Records, c: Claim, signed: bool, now: nat, at: nat, limits: Limits)
    requires Accepts(records, c, signed, now, limits) && Live(records, c.hostname, now) && RenewedFrom(records, c.hostname, at)
    ensures now >= SaturatingAdd(at, limits.minRenewalInterval)
  {}

  /** The record of a name was renewed no earlier than this. */
  predicate RenewedFrom(records: Records, h: Hostname, at: nat) {
    h in records && records[h].renewedAt >= at
  }

  lemma RenewedFirst(cmds: seq<Command>, i: nat, limits: Limits)
    requires i < |cmds| && AcceptedAt(cmds, i, limits)
    ensures RenewedFrom(After(map[], cmds[..i + 1], limits), cmds[i].claim.hostname, cmds[i].at)
  {
    AfterStep(cmds, i, limits);
  }

  lemma {:induction false} RenewedSince(cmds: seq<Command>, i: nat, j: nat, h: Hostname, at: nat, limits: Limits)
    requires i <= j <= |cmds| && RenewedFrom(After(map[], cmds[..i], limits), h, at)
    requires forall k :: i <= k < j ==> at <= cmds[k].at && Live(After(map[], cmds[..k], limits), h, cmds[k].at)
    ensures RenewedFrom(After(map[], cmds[..j], limits), h, at)
    decreases j
  {
    if i < j {
      RenewedSince(cmds, i, j - 1, h, at, limits);
      RenewedStep(cmds, j - 1, h, at, limits);
    }
  }

  lemma RenewedStep(cmds: seq<Command>, k: nat, h: Hostname, at: nat, limits: Limits)
    requires k < |cmds| && at <= cmds[k].at && RenewedFrom(After(map[], cmds[..k], limits), h, at)
    requires Live(After(map[], cmds[..k], limits), h, cmds[k].at)
    ensures RenewedFrom(After(map[], cmds[..k + 1], limits), h, at)
  {
    AfterStep(cmds, k, limits);
  }

  /** A renewal keeps the date of the first registration; an expired name starts a new one. */
  lemma FirstDateIsKept(records: Records, c: Claim, signed: bool, now: nat, limits: Limits)
    requires Accepts(records, c, signed, now, limits)
    ensures
      var after := AfterRegister(records, c, signed, now, limits);
      && c.hostname in after && after[c.hostname].renewedAt == now
      && after[c.hostname].registeredAt
         == (if Live(records, c.hostname, now) then records[c.hostname].registeredAt else now)
      && forall h :: h != c.hostname ==> (h in after <==> h in records) && (h in records ==> after[h] == records[h])
  {}

  /** What holds of every stored record: it expires its time to live after its last renewal, its zero record
      has a weight NTK_RFC 0009 allows, and its services are within the caps. */
  predicate StoredSound(r: HostedRecord, limits: Limits) {
    && r.expiresAt == r.renewedAt + limits.ttl
    && |Bucket(r.snsd, ZERO_SERVICE)| == 1 && Bucket(r.snsd, ZERO_SERVICE)[0].weight <= MAX_WEIGHT
    && (r.snsd.total == 1 || r.snsd.total <= limits.maxTotal)
    && forall s: U16 :: s != ZERO_SERVICE ==> |Bucket(r.snsd, s)| == 0 || |Bucket(r.snsd, s)| <= limits.maxPerService
  }

  lemma EntryIsSound(records: Records, c: Claim, signed: bool, now: nat, limits: Limits)
    requires Accepts(records, c, signed, now, limits)
    ensures StoredSound(Entry(records, c, now, limits), limits)
  {
    InsertedAllIff(ZeroRecord(c.ownerNaddr, c.zeroPriority, c.zeroWeight), c.snsdRecords,
                   limits.maxPerService, limits.maxTotal);
    forall s: U16 | s != ZERO_SERVICE
      ensures |OfService(c.snsdRecords, s)| == 0 || |OfService(c.snsdRecords, s)| <= limits.maxPerService
    {
      if OfService(c.snsdRecords, s) != [] {
        SomeOfService(c.snsdRecords, s);
      }
    }
  }

  lemma {:induction false} SomeOfService(rs: seq<SnsdRecord>, service: U16)
    requires OfService(rs, service) != []
    ensures exists r :: r in rs && r.service == service
  {
    var n := |rs| - 1;
    if rs[n].service == service {
      assert rs[n] in rs;
    } else {
      SomeOfService(rs[..n], service);
    }
  }

  lemma {:induction false} RunIsStoredSound(cmds: seq<Command>, limits: Limits, h: Hostname)
    requires h in After(map[], cmds, limits)
    ensures StoredSound(After(map[], cmds, limits)[h], limits)
  {
    var n := |cmds| - 1;
    var before := After(map[], cmds[..n], limits);
    if cmds[n].Register? && cmds[n].claim.hostname == h && Accepts(before, cmds[n].claim, cmds[n].signed, cmds[n].at, limits) {
      EntryIsSound(before, cmds[n].claim, cmds[n].signed, cmds[n].at, limits);
    } else {
      RunIsStoredSound(cmds[..n], limits, h);
    }
  }

  /** A purge keeps exactly the live names, as they are. */
  lemma PurgeKeepsLive(records: Records, now: nat, h: Hostname)
    ensures h in AfterPurge(records, now) <==> Live(records, h, now)
    ensures h in AfterPurge(records, now) ==> AfterPurge(records, now)[h] == records[h]
  {}

  /** Hosted names never exceed their cap. */
  lemma {:induction false} HostedBounded(cmds: seq<Command>, limits: Limits)
    ensures |After(map[], cmds, limits)| <= limits.maxHosted
  {
    if cmds != [] {
      var n := |cmds| - 1;
      HostedBounded(cmds[..n], limits);
      StepBounded(After(map[], cmds[..n], limits), cmds[n], limits);
    }
  }

  lemma StepBounded(records: Records, cmd: Command, limits: Limits)
    requires |records| <= limits.maxHosted
    ensures |Step(records, cmd, limits)| <= limits.maxHosted
  {
    var after := Step(records, cmd, limits);
    if cmd.Purge? {
      Fewer(after.Keys, records.Keys);
    } else if cmd.claim.hostname in records {
      Fewer(after.Keys, records.Keys);
    } else {
      Fewer(after.Keys, records.Keys + {cmd.claim.hostname});
    }
  }
}
