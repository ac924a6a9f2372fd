/**
  The ANDNA actor (`State` in `crates/ntk-andna/src/actor.rs`): the name store, the counter and the
  snapshot it publishes, command by command.
 */
module AndnaActor {
  import opened Prelude
  import opened Registration
  import Snsd
  import NameCache
  import Counter

  datatype Config = Config(limits: NameCache.Limits, caps: Counter.Caps)

  datatype Event =
    | Registered(hostname: Hostname, expiresAt: nat)
    | Renewed(hostname: Hostname, expiresAt: nat)
    | Expired(hostname: Hostname)

  datatype Snapshot = Snapshot(hosted: NameCache.Records, counters: map<Counter.Registrant, nat>)

  datatype Command =
    | Register(req: NameCache.Request, at: nat)
    | Resolve(hostname: Hostname, service: U16, at: nat)
    | CounterReserve(registrant: Counter.Registrant, hash: Counter.HostnameHash, at: nat)
    | PurgeExpired(at: nat)

  datatype Reply =
    | Registration(outcome: Result<NameCache.Outcome, NameCache.Rejected>)
    | Resolved(records: seq<SnsdRecord>)
    | Reservation(count: Result<nat, Counter.CounterRejected>)
    | NoReply

  /** The state as a value. */
  datatype Node = Node(records: NameCache.Records, ledger: Counter.Ledger, snapshot: Snapshot)

  const EMPTY: Node := Node(map[], map[], Snapshot(map[], map[]))

  predicate Acceptable(
    records: NameCache.Records, req: NameCache.Request, at: nat, config: Config, verify: NameCache.Verifier)
  {
    NameCache.Accepts(records, req.claim, NameCache.Verifies(verify, req), at, config.limits)
  }

  predicate Reservable(
    ledger: Counter.Ledger, registrant: Counter.Registrant, hash: Counter.HostnameHash, at: nat, config: Config)
  {
    && Counter.Tracks(ledger, registrant, config.caps)
    && Counter.HasRoom(Counter.HeldBy(ledger, registrant), hash, at, config.caps)
  }

  /** One command. A registration and a reservation patch one entry of the snapshot; only a purge
      publishes a whole one. */
  function Handled(n: Node, cmd: Command, config: Config, verify: NameCache.Verifier): Node {
    match cmd
    case Register(req, at) =>
      if Acceptable(n.records, req, at, config, verify) then
        var entry := NameCache.Entry(n.records, req.claim, at, config.limits);
        n.(records := NameCache.AfterRegister(n.records, req.claim, true, at, config.limits),
           snapshot := n.snapshot.(hosted := n.snapshot.hosted[req.claim.hostname := entry]))
      else n
    case Resolve(_, _, _) => n
    case CounterReserve(registrant, hash, at) =>
      var held := Counter.HeldBy(n.ledger, registrant);
      var ledger := Counter.AfterReserve(n.ledger, registrant, hash, at, config.limits.ttl, config.caps);
      if Reservable(n.ledger, registrant, hash, at, config) then
        var count := Counter.LiveCount(held[hash := at + config.limits.ttl], at);
        n.(ledger := ledger, snapshot := n.snapshot.(counters := n.snapshot.counters[registrant := count]))
      else n.(ledger := ledger)
    case PurgeExpired(at) =>
      var records := NameCache.AfterPurge(n.records, at);
      var ledger := Counter.AfterPurge(n.ledger, at);
      Node(records, ledger, Snapshot(records, Counter.LiveCounts(ledger, at)))
  }

  class State {
    const cache: NameCache.Cache
    const counters: Counter.CounterCache
    const config: Config
    var snapshot: Snapshot
    var events: seq<Event>

    function Value(): Node
      reads this, cache, counters
    {
      Node(cache.records, counters.byRegistrant, snapshot)
    }

    constructor (config: Config, verify: NameCache.Verifier)
      ensures Value() == EMPTY && events == []
      ensures this.config == config && cache.verify == verify && fresh(cache) && fresh(counters)
    {
      this.config := config;
      cache := new NameCache.Cache(verify);
      counters := new Counter.CounterCache();
      snapshot := Snapshot(map[], map[]);
      events := [];
    }

    /** `handle`. */
    method Handle(cmd: Command, rng: nat -> nat) returns (reply: Reply)
      modifies this`snapshot, this`events, cache`records, counters
      ensures Value() == Handled(old(Value()), cmd, config, cache.verify)
      ensures old(events) <= events
      ensures cmd.Register? ==>
        && reply.Registration?
        && (reply.outcome.Ok? <==> Acceptable(old(cache.records), cmd.req, cmd.at, config, cache.verify))
        && (reply.outcome.Ok? ==> events == old(events) + [RegistrationEvent(cmd.req.claim.hostname, reply.outcome.value)])
        && (reply.outcome.Err? ==> events == old(events))
      ensures cmd.Resolve? ==>
        && reply.Resolved? && events == old(events)
        && (NameCache.Live(cache.records, cmd.hostname, cmd.at) ==>
          && multiset(reply.records)
            == multiset(Snsd.Enabled(Snsd.Chosen(cache.records[cmd.hostname].snsd, cmd.service)))
          && Snsd.Descending(reply.records))
        && (!NameCache.Live(cache.records, cmd.hostname, cmd.at) ==> reply.records == [])
      ensures cmd.CounterReserve? ==>
        && reply.Reservation? && events == old(events)
        && (reply.count.Ok? <==> Reservable(old(counters.byRegistrant), cmd.registrant, cmd.hash, cmd.at, config))
        && (reply.count.Ok? ==> (cmd.registrant, reply.count.value) in snapshot.counters.Items)
      ensures cmd.PurgeExpired? ==>
        && reply.NoReply?
        && Announces(events[|old(events)|..], NameCache.ExpiredNames(old(cache.records), cmd.at))
    {
      match cmd {
        case Register(req, at) =>
          reply := OnRegister(req, at);
        case Resolve(h, service, at) =>
          var found := cache.ResolveName(h, service, at, rng);
          reply := Resolved(found);
        case CounterReserve(registrant, hash, at) =>
          reply := OnReserve(registrant, hash, at);
        case PurgeExpired(at) =>
          OnPurge(at);
          reply := NoReply;
      }
    }

    method OnReserve(registrant: Counter.Registrant, hash: Counter.HostnameHash, at: nat) returns (reply: Reply)
      modifies this`snapshot, counters
      ensures Value() == Handled(old(Value()), CounterReserve(registrant, hash, at), config, cache.verify)
      ensures reply.Reservation?
      ensures reply.count.Ok? <==> Reservable(old(counters.byRegistrant), registrant, hash, at, config)
      ensures reply.count.Ok? ==> (registrant, reply.count.value) in snapshot.counters.Items
    {
      var count := counters.TryReserve(registrant, hash, at, config.limits.ttl, config.caps);
      if count.Ok? {
        snapshot := snapshot.(counters := snapshot.counters[registrant := count.value]);
      }
      reply := Reservation(count);
    }

    method OnPurge(at: nat)
      modifies this`snapshot, this`events, cache`records, counters
      ensures Value() == Handled(old(Value()), PurgeExpired(at), config, cache.verify)
      ensures old(events) <= events
      ensures Announces(events[|old(events)|..], NameCache.ExpiredNames(old(cache.records), at))
    {
      var expired := cache.PurgeExpired(at);
      counters.PurgeExpired(at);
      ghost var added := Announce(expired);
      assert events[|old(events)|..] == added;
      snapshot := Snapshot(cache.records, Counter.LiveCounts(counters.byRegistrant, at));
    }

    method OnRegister(req: NameCache.Request, at: nat) returns (reply: Reply)
      modifies this`snapshot, this`events, cache`records
      ensures Value() == Handled(old(Value()), Register(req, at), config, cache.verify)
      ensures reply.Registration?
      ensures reply.outcome.Ok? <==> Acceptable(old(cache.records), req, at, config, cache.verify)
      ensures reply.outcome.Ok? ==>
        events == old(events) + [RegistrationEvent(req.claim.hostname, reply.outcome.value)]
      ensures reply.outcome.Err? ==> events == old(events)
    {
      var outcome := cache.Register(req, at, config.limits);
      if outcome.Ok? {
        events := events + [RegistrationEvent(req.claim.hostname, outcome.value)];
        if req.claim.hostname in cache.records {
          var record := cache.records[req.claim.hostname];
          snapshot := snapshot.(hosted := snapshot.hosted[req.claim.hostname := record]);
        }
      }
      reply := Registration(outcome);
    }

    /** One event for each expired name. */
    method Announce(expired: set<Hostname>) returns (ghost added: seq<Event>)
      modifies this`events
      ensures events == old(events) + added && Announces(added, expired)
    {
      var pending := expired;
      added := [];
      ghost var done: set<Hostname> := {};
      while pending != {}
        invariant done + pending == expired && done !! pending
        invariant events == old(events) + added && Announces(added, done)
        decreases |pending|
      {
        var h :| h in pending;
        AnnounceOne(added, done, h);
        events := events + [Expired(h)];
        added := added + [Expired(h)];
        done := done + {h};
        pending := pending - {h};
      }
      assert done == expired;
    }
  }

  function RegistrationEvent(h: Hostname, outcome: NameCache.Outcome): Event {
    match outcome
    case Registered(expiresAt) => Registered(h, expiresAt)
    case Renewed(expiresAt) => Renewed(h, expiresAt)
  }

  /** Exactly one expiry event for each of the names, and no other event. */
  ghost predicate Announces(events: seq<Event>, names: set<Hostname>) {
    && |events| == |names|
    && (forall h :: h in names ==> Expired(h) in events)
    && (forall e :: e in events ==> e.Expired? && e.hostname in names)
  }

  lemma AnnounceOne(events: seq<Event>, names: set<Hostname>, h: Hostname)
    requires Announces(events, names) && h !in names
    ensures Announces(events + [Expired(h)], names + {h})
  {}

  // ---------------------------------------------------------------- runs

  function After(cmds: seq<Command>, config: Config, verify: NameCache.Verifier): Node {
    if cmds == [] then EMPTY
    else Handled(After(cmds[..|cmds| - 1], config, verify), cmds[|cmds| - 1], config, verify)
  }

  predicate Chronological(cmds: seq<Command>) {
    forall i, j :: 0 <= i < j < |cmds| ==> cmds[i].at <= cmds[j].at
  }

  function LastTime(cmds: seq<Command>): nat {
    if cmds == [] then 0 else cmds[|cmds| - 1].at
  }

  /** The published names are the stored ones, and every cap holds at `t`. */
  predicate Sound(n: Node, config: Config, t: nat) {
    && n.snapshot.hosted == n.records
    && |n.records| <= config.limits.maxHosted
    && Counter.WithinCaps(n.ledger, config.caps, t)
  }

  lemma HandleKeepsSound(n: Node, cmd: Command, config: Config, verify: NameCache.Verifier)
    requires Sound(n, config, cmd.at)
    ensures Sound(Handled(n, cmd, config, verify), config, cmd.at)
  {
    match cmd {
      case Register(req, at) =>
        NameCache.StepBounded(
          n.records, NameCache.Register(req.claim, NameCache.Verifies(verify, req), at), config.limits);
      case Resolve(_, _, _) =>
      case CounterReserve(registrant, hash, at) =>
        Counter.ReserveKeepsCaps(n.ledger, registrant, hash, at, config.limits.ttl, config.caps);
      case PurgeExpired(at) =>
        NameCache.StepBounded(n.records, NameCache.Purge(at), config.limits);
        Counter.PurgeKeepsCaps(n.ledger, at, config.caps);
    }
  }

  /** After every command of every run, the published names are exactly the stored ones, and hosted
      names, tracked registrants and each registrant's live names are within their caps, at the time
      of the last command and at any later time. */
  lemma {:induction false} RunIsSound(cmds: seq<Command>, config: Config, verify: NameCache.Verifier, t: nat)
    requires Chronological(cmds) && LastTime(cmds) <= t
    ensures Sound(After(cmds, config, verify), config, t)
    decreases |cmds|
  {
    if cmds != [] {
      var n := |cmds| - 1;
      var before := After(cmds[..n], config, verify);
      RunIsSound(cmds[..n], config, verify, cmds[n].at);
      HandleKeepsSound(before, cmds[n], config, verify);
      Counter.CapsPersist(After(cmds, config, verify).ledger, config.caps, cmds[n].at, t);
    }
  }

  // ---------------------------------------------------------------- the store's laws, for the actor

  /** The commands of a run that reach the name store. */
  function StoreCommands(cmds: seq<Command>, verify: NameCache.Verifier): seq<NameCache.Command> {
    if cmds == [] then []
    else
      var n := |cmds| - 1;
      StoreCommands(cmds[..n], verify) + ToStore(cmds[n], verify)
  }

  function ToStore(cmd: Command, verify: NameCache.Verifier): seq<NameCache.Command> {
    match cmd
    case Register(req, at) => [NameCache.Register(req.claim, NameCache.Verifies(verify, req), at)]
    case PurgeExpired(at) => [NameCache.Purge(at)]
    case _ => []
  }

  lemma HandledRecords(n: Node, cmd: Command, config: Config, verify: NameCache.Verifier)
    ensures
      var c := ToStore(cmd, verify);
      Handled(n, cmd, config, verify).records == if c == [] then n.records else NameCache.Step(n.records, c[0], config.limits)
  {}

  /** The names a run stores are those of its store commands. */
  lemma {:induction false} RecordsOf(cmds: seq<Command>, config: Config, verify: NameCache.Verifier)
    ensures After(cmds, config, verify).records
      == NameCache.After(map[], StoreCommands(cmds, verify), config.limits)
  {
    if cmds != [] {
      var n := |cmds| - 1;
      var p := StoreCommands(cmds[..n], verify);
      var c := ToStore(cmds[n], verify);
      RecordsOf(cmds[..n], config, verify);
      HandledRecords(After(cmds[..n], config, verify), cmds[n], config, verify);
      if c == [] {
        assert p + c == p;
      } else {
        assert c == [c[0]];
        NameCache.AfterAppend(p, c[0], config.limits);
      }
    }
  }

  /** The place of command `k` among the store commands. */
  function Place(cmds: seq<Command>, k: nat, verify: NameCache.Verifier): nat
    requires k <= |cmds|
  {
    |StoreCommands(cmds[..k], verify)|
  }

  lemma {:induction false} StorePrefix(cmds: seq<Command>, k: nat, verify: NameCache.Verifier)
    requires k <= |cmds|
    ensures StoreCommands(cmds[..k], verify) <= StoreCommands(cmds, verify)
  {
    if k == |cmds| {
      assert cmds[..k] == cmds;
    } else {
      assert cmds[..|cmds| - 1][..k] == cmds[..k];
      StorePrefix(cmds[..|cmds| - 1], k, verify);
    }
  }

  /** A store command is found at its place, after those before it. */
  lemma Placed(cmds: seq<Command>, k: nat, verify: NameCache.Verifier)
    requires k < |cmds| && ToStore(cmds[k], verify) != []
    ensures
      var s, p := StoreCommands(cmds, verify), Place(cmds, k, verify);
      p < |s| && s[p] == ToStore(cmds[k], verify)[0] && s[..p] == StoreCommands(cmds[..k], verify)
  {
    StorePrefix(cmds, k, verify);
    StorePrefix(cmds, k + 1, verify);
    assert cmds[..k + 1][..k] == cmds[..k];
  }

  /** Every store command comes from some command of the run. */
  lemma {:induction false} Origin(cmds: seq<Command>, p: nat, verify: NameCache.Verifier) returns (k: nat)
    requires p < |StoreCommands(cmds, verify)|
    ensures k < |cmds| && Place(cmds, k, verify) == p && ToStore(cmds[k], verify) == [StoreCommands(cmds, verify)[p]]
  {
    var n := |cmds| - 1;
    if p < |StoreCommands(cmds[..n], verify)| {
      k := Origin(cmds[..n], p, verify);
      assert cmds[..n][..k] == cmds[..k];
    } else {
      k := n;
    }
  }

  /** Later commands have later places. */
  lemma {:induction false} PlacesGrow(cmds: seq<Command>, i: nat, k: nat, verify: NameCache.Verifier)
    requires i <= k <= |cmds|
    ensures Place(cmds, i, verify) <= Place(cmds, k, verify)
    ensures i < k && ToStore(cmds[i], verify) != [] ==> Place(cmds, i, verify) < Place(cmds, k, verify)
  {
    if i < k {
      assert cmds[..k][..k - 1] == cmds[..k - 1];
      PlacesGrow(cmds, i, k - 1, verify);
    }
  }

  lemma StoreIsChronological(cmds: seq<Command>, verify: NameCache.Verifier)
    requires Chronological(cmds)
    ensures NameCache.Chronological(StoreCommands(cmds, verify))
  {
    var s := StoreCommands(cmds, verify);
    forall a, b | 0 <= a < b < |s| ensures s[a].at <= s[b].at {
      var i := Origin(cmds, a, verify);
      var j := Origin(cmds, b, verify);
      if j <= i {
        PlacesGrow(cmds, j, i, verify);
      }
    }
  }

  /** Command `i` of a run is a registration that is accepted. */
  predicate AcceptedAt(cmds: seq<Command>, i: nat, config: Config, verify: NameCache.Verifier)
    requires i < |cmds|
  {
    cmds[i].Register? && Acceptable(After(cmds[..i], config, verify).records, cmds[i].req, cmds[i].at, config, verify)
  }

  lemma AcceptedInStore(cmds: seq<Command>, i: nat, config: Config, verify: NameCache.Verifier)
    requires i < |cmds| && AcceptedAt(cmds, i, config, verify)
    ensures
      var s := StoreCommands(cmds, verify);
      var p := Place(cmds, i, verify);
      p < |s| && s[p].Register? && s[p].claim == cmds[i].req.claim && NameCache.AcceptedAt(s, p, config.limits)
  {
    var s := StoreCommands(cmds, verify);
    Placed(cmds, i, verify);
    RecordsOf(cmds[..i], config, verify);
  }

  /** No run of the actor accepts one claim twice, if the time to live is more than twice the skew. */
  lemma NoReplay(cmds: seq<Command>, i: nat, j: nat, config: Config, verify: NameCache.Verifier)
    requires config.limits.ttl > 2 * NameCache.MAX_TIMESTAMP_SKEW_SECS
    requires Chronological(cmds) && i < j < |cmds|
    requires AcceptedAt(cmds, i, config, verify) && AcceptedAt(cmds, j, config, verify)
    ensures cmds[i].req.claim != cmds[j].req.claim
  {
    StoreIsChronological(cmds, verify);
    AcceptedInStore(cmds, i, config, verify);
    AcceptedInStore(cmds, j, config, verify);
    PlacesGrow(cmds, i, j, verify);
    NameCache.NoReplay(
      StoreCommands(cmds, verify), Place(cmds, i, verify), Place(cmds, j, verify), config.limits);
  }

  /** The name is live at every command after `i`, up to and including `j`. */
  predicate LiveThrough(cmds: seq<Command>, h: Hostname, i: nat, j: nat, config: Config, verify: NameCache.Verifier)
    requires i <= j < |cmds|
  {
    forall k :: i < k <= j ==> NameCache.Live(After(cmds[..k], config, verify).records, h, cmds[k].at)
  }

  lemma LiveInStore(cmds: seq<Command>, h: Hostname, i: nat, j: nat, config: Config, verify: NameCache.Verifier)
    requires i <= j < |cmds| && LiveThrough(cmds, h, i, j, config, verify)
    requires ToStore(cmds[i], verify) != [] && ToStore(cmds[j], verify) != []
    ensures Place(cmds, i, verify) <= Place(cmds, j, verify) < |StoreCommands(cmds, verify)|
    ensures NameCache.LiveThrough(
      StoreCommands(cmds, verify), h, Place(cmds, i, verify), Place(cmds, j, verify), config.limits)
  {
    var s := StoreCommands(cmds, verify);
    Placed(cmds, j, verify);
    PlacesGrow(cmds, i, j, verify);
    forall p | Place(cmds, i, verify) < p <= Place(cmds, j, verify)
      ensures NameCache.Live(NameCache.After(map[], s[..p], config.limits), h, s[p].at)
    {
      var k := Origin(cmds, p, verify);
      if k <= i {
        PlacesGrow(cmds, k, i, verify);
      }
      if j < k {
        PlacesGrow(cmds, j, k, verify);
      }
      Placed(cmds, k, verify);
      RecordsOf(cmds[..k], config, verify);
      assert NameCache.Live(After(cmds[..k], config, verify).records, h, cmds[k].at);
    }
  }

  /** Over any run of the actor, accepted registrations of a name that stays live come from one owner
      with strictly increasing sequence numbers. */
  lemma OwnerAndSequence(cmds: seq<Command>, i: nat, j: nat, config: Config, verify: NameCache.Verifier)
    requires i < j < |cmds| && AcceptedAt(cmds, i, config, verify) && AcceptedAt(cmds, j, config, verify)
    requires cmds[i].req.claim.hostname == cmds[j].req.claim.hostname
    requires LiveThrough(cmds, cmds[i].req.claim.hostname, i, j, config, verify)
    ensures cmds[i].req.claim.ownerKey == cmds[j].req.claim.ownerKey
    ensures cmds[i].req.claim.sequence < cmds[j].req.claim.sequence
  {
    AcceptedInStore(cmds, i, config, verify);
    AcceptedInStore(cmds, j, config, verify);
    PlacesGrow(cmds, i, j, verify);
    LiveInStore(cmds, cmds[i].req.claim.hostname, i, j, config, verify);
    NameCache.OwnerAndSequence(
      StoreCommands(cmds, verify), Place(cmds, i, verify), Place(cmds, j, verify), config.limits);
  }

  /** A whole run of the actor. */
  method Run(config: Config, verify: NameCache.Verifier, cmds: seq<Command>, rng: nat -> nat)
    returns (n: Node)
    requires Chronological(cmds)
    ensures n == After(cmds, config, verify)
    ensures forall t: nat :: LastTime(cmds) <= t ==> Sound(n, config, t)
  {
    var state := new State(config, verify);
    for k := 0 to |cmds|
      invariant fresh(state) && fresh(state.cache) && fresh(state.counters)
      invariant state.config == config && state.cache.verify == verify
      invariant state.Value() == After(cmds[..k], config, verify)
    {
      assert cmds[..k + 1][..k] == cmds[..k];
      var _ := state.Handle(cmds[k], rng);
    }
    assert cmds[..|cmds|] == cmds;
    n := state.Value();
    forall t: nat | LastTime(cmds) <= t ensures Sound(n, config, t) {
      RunIsSound(cmds, config, verify, t);
    }
  }
}
