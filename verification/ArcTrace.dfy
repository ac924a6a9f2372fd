/**
  What the negotiation of one arc may do: the calls of `run_arc_handler` in
  `crates/ntk-hooking/src/arc.rs`, each recorded with the answer it got, and the laws every such trace
  satisfies.
 */
module ArcTrace {
  import opened Prelude

  const MAX_EXEC_FAILURES: nat := 4
  const EVALUATE_ENTER_UNREACHABLE_RETRIES: nat := 5

  datatype NetAnswer = Data(networkId: int, compatible: bool) | NotBootstrapped | NotPrincipal | BadArc

  datatype Direction = Proceed | Wait | AskCoordinator

  datatype EvalAnswer = Accept(lvl: nat) | AskAgain | IgnoreNetwork | Unreachable | EvalFailed

  datatype BeginAnswer = Begun | AlreadyEntering | BeginFailed

  /** `ExecuteFailure` also stands for an RPC timeout. */
  datatype SearchAnswer = Entry(networkId: int) | NoPath | ExecuteFailure | OtherError

  /** What an await can receive; each await reads the field it is about. The local view is read at
      the same points. */
  datatype Answer = Answer(
    cancelled: bool, amReal: bool, myNetworkId: int, net: NetAnswer, direction: Direction, mergeAccepted: bool,
    slotGranted: bool, eval: EvalAnswer, begin: BeginAnswer, search: SearchAnswer, ok: bool)

  /** The answer a call got; none if the handler was dropped while it waited. */
  type Got = Option<Answer>

  /** The calls of a run, in order. The last three are not awaited; `DropRelease` is the release
      spawned by a dropped `EnterGuard`. */
  datatype Event =
    | Retrieve(authoritative: bool, got: Got)
    | DecideMerge(network: int, got: Got)
    | AskCommit(got: Got)
    | Evaluate(network: int, got: Got)
    | BeginEnter(lvl: nat, got: Got)
    | SearchPath(lvl: nat, got: Got)
    | AbortEnter(lvl: nat, got: Got)
    | CompletedEnter(lvl: nat, got: Got)
    | PrepareEnter(lvl: nat, got: Got)
    | FinishEnter(lvl: nat, network: int, got: Got)
    | Sleep(got: Got)
    | MarkEntered(lvl: nat, network: int)
    | DropRelease(lvl: nat)
    | EndCommit

  predicate Awaited(e: Event) {
    !e.MarkEntered? && !e.DropRelease? && !e.EndCommit?
  }

  // ---------------------------------------------------------------- the laws of a trace

  /** The answers a trace has received, in order. */
  function Received(t: seq<Event>): seq<Answer> {
    if t == [] then []
    else
      var e := t[|t| - 1];
      Received(t[..|t| - 1]) + if Awaited(e) && e.got.Some? then [e.got.value] else []
  }

  /** What the calls so far amount to: the network last reported, whether the slot is held, the level
      granted under it and whether that was given back, the level last asked for, the answers last
      given by the evaluation and the search, how often each kind of attempt was made, the last
      call, the call before the last sleep, whether the handler may start over, and whether it was
      dropped. */
  datatype Monitor = Monitor(
    network: Option<int>, held: bool, grant: Option<nat>, released: bool, asked: nat, eval: Option<EvalAnswer>,
    search: Option<SearchAnswer>, begins: nat, failures: nat, unreachable: nat, last: Event, slept: Event,
    redo: bool, dropped: bool)

  const START: Monitor := Monitor(None, false, None, false, 0, None, None, 0, 0, 0, EndCommit, EndCommit, true, false)

  /** A release of `lvl` that is known to have been made: a successful call, or that of the guard. */
  predicate Releases(e: Event, lvl: nat) {
    || ((e.AbortEnter? || e.CompletedEnter?) && e.lvl == lvl && e.got.Some? && e.got.value.ok)
    || e == DropRelease(lvl)
  }

  predicate Grants(e: Event) {
    e.Evaluate? && e.got.Some? && e.got.value.eval.Accept?
  }

  function Observe(m: Monitor, e: Event): Monitor {
    var n := m.(
      last := e, slept := if e.Sleep? then m.last else m.slept,
      redo := if Awaited(e) then e.Sleep? && e.got.Some? && !e.got.value.cancelled else m.redo,
      dropped := m.dropped || (Awaited(e) && e.got.None?));
    match e
    case Retrieve(_, Some(a)) => if a.net.Data? then n.(network := Some(a.net.networkId)) else n
    case AskCommit(Some(a)) => if a.slotGranted then n.(held := true, grant := None, eval := None, unreachable := 0) else n
    case Evaluate(_, Some(a)) =>
      if a.eval.Accept?
      then n.(eval := Some(a.eval), grant := Some(a.eval.lvl), released := false, search := None, begins := 0, failures := 0)
      else n.(eval := Some(a.eval), unreachable := m.unreachable + if a.eval.Unreachable? then 1 else 0)
    case BeginEnter(l, _) =>
      n.(asked := l, search := None, begins := m.begins + 1,
         failures := m.failures + if m.search == Some(ExecuteFailure) then 1 else 0)
    case SearchPath(_, Some(a)) => n.(search := Some(a.search))
    case EndCommit => n.(held := false, grant := None)
    case _ => n.(released := m.released || (m.grant.Some? && Releases(e, m.grant.value)))
  }

  function Observed(t: seq<Event>): Monitor {
    if t == [] then START else Observe(Observed(t[..|t| - 1]), t[|t| - 1])
  }

  /** A different network, of a compatible topology. */
  predicate Foreign(a: Answer) {
    a.net.Data? && a.net.networkId != a.myNetworkId && a.net.compatible
  }

  /** The entry offered is into the network decided on, and a g-node of several members is not there
      already. */
  predicate MayEnter(a: Answer, lvl: nat, network: Option<int>) {
    a.search.Entry? && network == Some(a.search.networkId) && (lvl == 0 || a.myNetworkId != a.search.networkId)
  }

  /** Whether a call may be made after what was observed. */
  predicate Legit(m: Monitor, e: Event) {
    var last := m.last;
    match e
    case Retrieve(authoritative, _) =>
      && !m.dropped && !m.held
      && (authoritative ==>
        && last.Retrieve? && !last.authoritative && last.got.Some?
        && Foreign(last.got.value) && last.got.value.direction.AskCoordinator?)
    case DecideMerge(n, _) =>
      && !m.dropped && !m.held && last.Retrieve? && last.authoritative && last.got.Some?
      && last.got.value.net.Data? && last.got.value.net.networkId == n
    case AskCommit(_) =>
      && !m.dropped && !m.held && m.network.Some?
      && (|| (last.Retrieve? && !last.authoritative && last.got.Some?
              && Foreign(last.got.value) && last.got.value.direction.Proceed?)
          || (last.DecideMerge? && last.got.Some? && last.got.value.mergeAccepted))
    case Evaluate(n, _) =>
      && !m.dropped && m.held && m.grant.None? && m.network == Some(n)
      && (m.eval.None? || m.eval == Some(AskAgain) || m.eval == Some(Unreachable))
      && m.unreachable <= EVALUATE_ENTER_UNREACHABLE_RETRIES
    case BeginEnter(l, _) =>
      && !m.dropped && m.held && m.grant.Some?
      && if m.begins == 0 then l == m.grant.value
         else
           || (m.search == Some(NoPath) && l + 1 == m.asked && last.AbortEnter? && last.got.Some? && last.got.value.ok)
           || (m.search == Some(ExecuteFailure) && l == m.asked && m.failures + 1 < MAX_EXEC_FAILURES && last.Sleep?)
    case SearchPath(l, _) =>
      !m.dropped && last.BeginEnter? && last.lvl == l && last.got.Some? && last.got.value.begin.Begun?
    case AbortEnter(l, _) =>
      && !m.dropped && last.SearchPath? && last.lvl == l && last.got.Some?
      && !last.got.value.search.OtherError? && !MayEnter(last.got.value, l, m.network)
    case CompletedEnter(l, _) =>
      && !m.dropped && last.SearchPath? && last.lvl == l && last.got.Some?
      && MayEnter(last.got.value, l, m.network)
    case PrepareEnter(l, _) =>
      !m.dropped && m.network.Some? && last.CompletedEnter? && last.lvl == l && last.got.Some? && last.got.value.ok
    case FinishEnter(l, n, _) =>
      !m.dropped && last.PrepareEnter? && last.lvl == l && m.network == Some(n)
    case MarkEntered(l, n) => !m.dropped && last.FinishEnter? && last.lvl == l && last.network == n
    case Sleep(_) => !m.dropped
    case DropRelease(l) => m.held && m.grant == Some(l) && !m.released
    case EndCommit => m.held && (m.grant.Some? ==> m.released)
  }

  /** What a sleep after the call `slept` leads back to; none if the handler is redone. */
  function AfterSleep(slept: Event, m: Monitor): Option<Event> {
    match slept
    case Retrieve(_, Some(a)) => if a.net.NotBootstrapped? then Some(Retrieve(false, None)) else None
    case Evaluate(n, Some(a)) => if a.eval.AskAgain? || a.eval.Unreachable? then Some(Evaluate(n, None)) else None
    case AbortEnter(l, _) =>
      if m.search == Some(ExecuteFailure) && m.failures + 1 < MAX_EXEC_FAILURES then Some(BeginEnter(l, None)) else None
    case _ => None
  }

  /** The call the handler owes after what was observed, its answer left open; none if it may leave. */
  function Owed(m: Monitor): Option<Event> {
    if m.dropped then None
    else match m.last
      case Retrieve(false, Some(a)) =>
        if a.net.NotBootstrapped? then Some(Sleep(None))
        else if !Foreign(a) then None
        else (match a.direction
          case Proceed => Some(AskCommit(None))
          case Wait => Some(Sleep(None))
          case AskCoordinator => Some(Retrieve(true, None)))
      case Retrieve(true, Some(a)) => if a.net.Data? then Some(DecideMerge(a.net.networkId, None)) else None
      case DecideMerge(_, Some(a)) => Some(if a.mergeAccepted then AskCommit(None) else Sleep(None))
      case AskCommit(Some(a)) =>
        if !a.slotGranted then Some(Sleep(None)) else if m.network.Some? then Some(Evaluate(m.network.value, None)) else None
      case Evaluate(_, Some(a)) => (
        match a.eval
        case Accept(l) => Some(BeginEnter(l, None))
        case EvalFailed => None
        case Unreachable => if m.unreachable <= EVALUATE_ENTER_UNREACHABLE_RETRIES then Some(Sleep(None)) else None
        case _ => Some(Sleep(None)))
      case BeginEnter(l, Some(a)) => (
        match a.begin
        case Begun => Some(SearchPath(l, None))
        case AlreadyEntering => Some(Sleep(None))
        case BeginFailed => None)
      case SearchPath(l, Some(a)) =>
        if a.search.OtherError? then None
        else Some(if MayEnter(a, l, m.network) then CompletedEnter(l, None) else AbortEnter(l, None))
      case AbortEnter(l, Some(a)) =>
        if !a.ok then None else Some(if m.search == Some(NoPath) && l > 0 then BeginEnter(l - 1, None) else Sleep(None))
      case CompletedEnter(l, Some(a)) => if a.ok then Some(PrepareEnter(l, None)) else None
      case PrepareEnter(l, Some(_)) => if m.network.Some? then Some(FinishEnter(l, m.network.value, None)) else None
      case FinishEnter(l, n, Some(_)) => Some(MarkEntered(l, n))
      case Sleep(Some(a)) => if a.cancelled then None else AfterSleep(m.slept, m)
      case _ => None
  }

  /** The same call, whatever it was answered. */
  predicate SameCall(due: Event, e: Event) {
    e == due || (Awaited(e) && Awaited(due) && e.(got := None) == due)
  }

  /** A call that is owed is made and no other, and the handler starts over only after a sleep it was not
      cancelled in. */
  predicate Due(m: Monitor, e: Event) {
    if Owed(m).Some? then SameCall(Owed(m).value, e)
    else if Awaited(e) then e == Retrieve(false, e.got) && m.redo
    else !e.MarkEntered?
  }

  /** Every call of the trace was allowed when it was made. */
  predicate Legal(t: seq<Event>) {
    t == [] || (Legal(t[..|t| - 1]) && Legit(Observed(t[..|t| - 1]), t[|t| - 1]))
  }

  /** Every call of the trace was due when it was made. */
  predicate Prompt(t: seq<Event>) {
    t == [] || (Prompt(t[..|t| - 1]) && Due(Observed(t[..|t| - 1]), t[|t| - 1]))
  }

  /** At whatever point a run ends: it made the calls that were due and no other, it recorded the answers
      as they came, all of them if it was dropped, it owes no call, it has given the slot back, and it
      did not start over only because it was cancelled or is no longer real. */
  predicate Sound(t: seq<Event>, answers: seq<Answer>) {
    && Legal(t) && Prompt(t)
    && Received(t) <= answers
    && (Observed(t).dropped ==> Received(t) == answers)
    && !Observed(t).held && Owed(Observed(t)).None?
    && (Observed(t).redo ==>
          |Received(t)| < |answers| && (answers[|Received(t)|].cancelled || !answers[|Received(t)|].amReal))
  }

  lemma ExtendLegal(t: seq<Event>, e: Event)
    requires Legal(t) && Legit(Observed(t), e)
    ensures Legal(t + [e])
  {
    assert (t + [e])[..|t|] == t;
  }

  lemma ExtendPrompt(t: seq<Event>, e: Event)
    requires Prompt(t) && Due(Observed(t), e)
    ensures Prompt(t + [e])
  {
    assert (t + [e])[..|t|] == t;
  }

  lemma Extend(t: seq<Event>, e: Event)
    ensures Observed(t + [e]) == Observe(Observed(t), e)
    ensures Received(t + [e]) == Received(t) + if Awaited(e) && e.got.Some? then [e.got.value] else []
    ensures Legal(t + [e]) <==> Legal(t) && Legit(Observed(t), e)
    ensures Prompt(t + [e]) <==> Prompt(t) && Due(Observed(t), e)
  {
    assert (t + [e])[..|t|] == t;
  }

  // ---------------------------------------------------------------- what legal traces satisfy

  lemma {:induction false} LegalAt(t: seq<Event>, k: nat)
    requires Legal(t) && k < |t|
    ensures Legit(Observed(t[..k]), t[k])
  {
    if k < |t| - 1 {
      LegalAt(t[..|t| - 1], k);
      assert t[..|t| - 1][..k] == t[..k];
    }
  }

  lemma {:induction false} DueAt(t: seq<Event>, k: nat)
    requires Prompt(t) && k < |t|
    ensures Due(Observed(t[..k]), t[k])
  {
    if k < |t| - 1 {
      DueAt(t[..|t| - 1], k);
      assert t[..|t| - 1][..k] == t[..k];
    }
  }

  lemma ObservedStep(t: seq<Event>, k: nat)
    requires k < |t|
    ensures Observed(t[..k + 1]) == Observe(Observed(t[..k]), t[k])
  {
    assert t[..k + 1][..k] == t[..k];
  }

  /** The monitor's last call is the last call. */
  lemma LastObserved(t: seq<Event>, k: nat)
    requires 0 < k <= |t|
    ensures Observed(t[..k]).last == t[k - 1]
  {
    ObservedStep(t, k - 1);
  }

  /** The entry completed by call `i`, directly after a search at the same level, was offered in the
      network the last data came from, and a g-node of several members was not there already. */
  predicate AsDecided(t: seq<Event>, i: nat)
    requires i < |t| && t[i].CompletedEnter?
  {
    && i > 0 && t[i - 1].SearchPath? && t[i - 1].lvl == t[i].lvl && t[i - 1].got.Some?
    && var a := t[i - 1].got.value;
       && a.search.Entry? && LastNetwork(t[..i]) == Some(a.search.networkId)
       && (t[i].lvl == 0 || a.myNetworkId != a.search.networkId)
  }

  lemma EntryAsDecided(t: seq<Event>, i: nat)
    requires Legal(t) && i < |t| && t[i].CompletedEnter?
    ensures AsDecided(t, i)
  {
    NetworkObserved(t[..i]);
    LegalAt(t, i);
    if i > 0 {
      LastObserved(t, i);
    }
  }

  /** The network named by the last data retrieved. */
  function LastNetwork(t: seq<Event>): Option<int> {
    if t == [] then None
    else
      var e := t[|t| - 1];
      if e.Retrieve? && e.got.Some? && e.got.value.net.Data? then Some(e.got.value.net.networkId)
      else LastNetwork(t[..|t| - 1])
  }

  lemma {:induction false} NetworkObserved(t: seq<Event>)
    ensures Observed(t).network == LastNetwork(t)
  {
    if t != [] {
      NetworkObserved(t[..|t| - 1]);
    }
  }

  /** A stretch of a trace in which the slot is not given back. */
  predicate OneCommit(t: seq<Event>, i: nat, j: nat)
    requires i <= j <= |t|
  {
    forall k :: i <= k < j ==> !t[k].EndCommit?
  }

  predicate ReleasedIn(t: seq<Event>, lvl: nat, i: nat, j: nat)
    requires i <= j <= |t|
  {
    exists k :: i <= k < j && Releases(t[k], lvl)
  }

  function Begins(t: seq<Event>, i: nat, j: nat): nat
    requires i <= j <= |t|
  {
    if i == j then 0 else Begins(t, i, j - 1) + if t[j - 1].BeginEnter? then 1 else 0
  }

  /** The level granted and whether it was released, and the attempts to begin accounted for by the
      levels gone down and the failures retried. */
  predicate UnderGrant(m: Monitor, lvl: nat, released: bool, begins: nat) {
    && m.held && m.grant == Some(lvl) && m.released == released && m.begins == begins
    && m.failures < MAX_EXEC_FAILURES
    && (m.begins == 0 ==> m.failures == 0 && m.search.None? && (m.last.Evaluate? || m.last.Sleep? || m.last.DropRelease?))
    && (m.begins > 0 ==> m.asked <= lvl && m.begins == 1 + (lvl - m.asked) + m.failures)
  }

  lemma GrantStarts(m: Monitor, e: Event)
    requires Legit(m, e) && Grants(e)
    ensures UnderGrant(Observe(m, e), e.got.value.eval.lvl, false, 0)
  {}

  lemma GrantContinues(m: Monitor, e: Event, lvl: nat, released: bool, begins: nat)
    requires Legit(m, e) && UnderGrant(m, lvl, released, begins) && !e.EndCommit?
    ensures UnderGrant(Observe(m, e), lvl, released || Releases(e, lvl), begins + if e.BeginEnter? then 1 else 0)
  {}

  /** While the slot is held, the monitor keeps the level granted at `i`, knows whether it was
      released since, and counts the attempts to begin. */
  lemma {:induction false} GrantObserved(t: seq<Event>, i: nat, j: nat)
    requires Legal(t) && i < j <= |t| && Grants(t[i]) && OneCommit(t, i, j)
    ensures UnderGrant(
      Observed(t[..j]), t[i].got.value.eval.lvl, ReleasedIn(t, t[i].got.value.eval.lvl, i, j), Begins(t, i, j))
    decreases j
  {
    var lvl := t[i].got.value.eval.lvl;
    if j == i + 1 {
      GrantFirst(t, i);
      assert Begins(t, i, i) == 0;
    } else {
      GrantObserved(t, i, j - 1);
      GrantNext(t, j - 1, lvl, ReleasedIn(t, lvl, i, j - 1), Begins(t, i, j - 1));
      ReleasedMore(t, lvl, i, j - 1);
    }
  }

  lemma GrantFirst(t: seq<Event>, i: nat)
    requires Legal(t) && i < |t| && Grants(t[i])
    ensures UnderGrant(Observed(t[..i + 1]), t[i].got.value.eval.lvl, false, 0)
  {
    ObservedStep(t, i);
    LegalAt(t, i);
    GrantStarts(Observed(t[..i]), t[i]);
  }

  lemma GrantNext(t: seq<Event>, k: nat, lvl: nat, released: bool, begins: nat)
    requires Legal(t) && k < |t| && !t[k].EndCommit? && UnderGrant(Observed(t[..k]), lvl, released, begins)
    ensures UnderGrant(
      Observed(t[..k + 1]), lvl, released || Releases(t[k], lvl), begins + if t[k].BeginEnter? then 1 else 0)
  {
    ObservedStep(t, k);
    LegalAt(t, k);
    GrantContinues(Observed(t[..k]), t[k], lvl, released, begins);
  }

  lemma ReleasedMore(t: seq<Event>, lvl: nat, i: nat, j: nat)
    requires i <= j < |t|
    ensures ReleasedIn(t, lvl, i, j + 1) <==> ReleasedIn(t, lvl, i, j) || Releases(t[j], lvl)
  {
    if ReleasedIn(t, lvl, i, j) {
      var k :| i <= k < j && Releases(t[k], lvl);
      assert i <= k < j + 1;
    }
  }

  /** The level granted by call `i` is released before the slot is given back. */
  ghost predicate GivenBack(t: seq<Event>, i: nat)
    requires i < |t| && Grants(t[i])
  {
    exists j :: i < j < |t| && t[j].EndCommit? && OneCommit(t, i, j) && ReleasedIn(t, t[i].got.value.eval.lvl, i, j)
  }

  /** Every granted level is released, by a successful call or by the guard, before the slot is given
      back; and the slot is given back. */
  lemma GrantReleased(t: seq<Event>, i: nat)
    requires Legal(t) && !Observed(t).held && i < |t| && Grants(t[i])
    ensures GivenBack(t, i)
  {
    var j := NextEnd(t, i);
    GrantObserved(t, i, j);
    if j == |t| {
      StillHeld(t, t[i].got.value.eval.lvl, ReleasedIn(t, t[i].got.value.eval.lvl, i, j), Begins(t, i, j));
    } else {
      LegalAt(t, j);
    }
  }

  lemma StillHeld(t: seq<Event>, lvl: nat, released: bool, begins: nat)
    requires UnderGrant(Observed(t[..|t|]), lvl, released, begins)
    ensures Observed(t).held
  {
    assert t[..|t|] == t;
  }

  /** The next release of the slot, or the end of the trace. */
  lemma NextEnd(t: seq<Event>, i: nat) returns (j: nat)
    requires i < |t| && !t[i].EndCommit?
    ensures i < j <= |t| && OneCommit(t, i, j) && (j < |t| ==> t[j].EndCommit?)
  {
    j := i + 1;
    while j < |t| && !t[j].EndCommit?
      invariant i < j <= |t| && OneCommit(t, i, j)
    {
      j := j + 1;
    }
  }

  /** At most the granted level plus four attempts to begin are made under one grant. */
  lemma BeginsBounded(t: seq<Event>, i: nat, j: nat)
    requires Legal(t) && i < j <= |t| && Grants(t[i]) && OneCommit(t, i, j)
    ensures Begins(t, i, j) <= t[i].got.value.eval.lvl + MAX_EXEC_FAILURES
  {
    GrantObserved(t, i, j);
  }

  function Unreachables(t: seq<Event>, i: nat, j: nat): nat
    requires i <= j <= |t|
  {
    if i == j then 0
    else
      var e := t[j - 1];
      Unreachables(t, i, j - 1) + if e.Evaluate? && e.got.Some? && e.got.value.eval.Unreachable? then 1 else 0
  }

  predicate TakesSlot(e: Event) {
    e.AskCommit? && e.got.Some? && e.got.value.slotGranted
  }

  /** An unreachable coordinator is asked again at most five times under one grant of the slot. */
  lemma {:induction false} UnreachableBounded(t: seq<Event>, i: nat, j: nat)
    requires Legal(t) && i < j <= |t| && TakesSlot(t[i]) && OneCommit(t, i, j)
    ensures Observed(t[..j]).held && Observed(t[..j]).unreachable == Unreachables(t, i, j)
    ensures Unreachables(t, i, j) <= EVALUATE_ENTER_UNREACHABLE_RETRIES + 1
    decreases j
  {
    ObservedStep(t, j - 1);
    LegalAt(t, j - 1);
    if j > i + 1 {
      UnreachableBounded(t, i, j - 1);
    } else {
      assert Unreachables(t, i, i) == 0;
    }
    UnreachableStep(Observed(t[..j - 1]), t[j - 1]);
  }

  lemma UnreachableStep(m: Monitor, e: Event)
    requires Legit(m, e)
    ensures TakesSlot(e) ==> Observe(m, e).held && Observe(m, e).unreachable == 0
    ensures m.held && !e.EndCommit? ==>
      var more := if e.Evaluate? && e.got.Some? && e.got.value.eval.Unreachable? then 1 else 0;
      && Observe(m, e).held && Observe(m, e).unreachable == m.unreachable + more
      && (more == 1 ==> m.unreachable <= EVALUATE_ENTER_UNREACHABLE_RETRIES)
  {}

  // ---------------------------------------------------------------- which call follows

  /** The call after call `i` is `call`, whatever it was answered. */
  predicate NextIs(t: seq<Event>, i: nat, call: Event) {
    i + 1 < |t| && SameCall(call, t[i + 1])
  }

  /** The searches since the last grant that ended in an execute failure. */
  function ExecFailures(t: seq<Event>): nat {
    if t == [] then 0
    else
      var e := t[|t| - 1];
      if Grants(e) then 0
      else ExecFailures(t[..|t| - 1]) + if e.SearchPath? && e.got.Some? && e.got.value.search.ExecuteFailure? then 1 else 0
  }

  /** What the answer to call `i` leads to. */
  predicate LeadsOn(t: seq<Event>, i: nat)
    requires i < |t|
  {
    match t[i]
    case Retrieve(false, Some(a)) =>
      && (Foreign(a) ==> NextIs(t, i, match a.direction
           case Proceed => AskCommit(None)
           case Wait => Sleep(None)
           case AskCoordinator => Retrieve(true, None)))
      && (a.net.NotBootstrapped? ==> NextIs(t, i, Sleep(None)))
    case Retrieve(true, Some(a)) => a.net.Data? ==> NextIs(t, i, DecideMerge(a.net.networkId, None))
    case DecideMerge(_, Some(a)) => NextIs(t, i, if a.mergeAccepted then AskCommit(None) else Sleep(None))
    case AskCommit(Some(a)) =>
      if a.slotGranted then i + 1 < |t| && t[i + 1].Evaluate? && LastNetwork(t[..i]) == Some(t[i + 1].network)
      else NextIs(t, i, Sleep(None))
    case Evaluate(_, Some(a)) =>
      && (a.eval.Accept? ==> NextIs(t, i, BeginEnter(a.eval.lvl, None)))
      && (a.eval.AskAgain? || a.eval.IgnoreNetwork? ==> NextIs(t, i, Sleep(None)))
    case BeginEnter(l, Some(a)) =>
      && (a.begin.Begun? ==> NextIs(t, i, SearchPath(l, None)))
      && (a.begin.AlreadyEntering? ==> NextIs(t, i, Sleep(None)))
    case SearchPath(l, Some(a)) =>
      !a.search.OtherError? ==>
        NextIs(t, i, if MayEnter(a, l, LastNetwork(t[..i])) then CompletedEnter(l, None) else AbortEnter(l, None))
    case AbortEnter(l, Some(a)) =>
      && i > 0 && t[i - 1].SearchPath? && t[i - 1].lvl == l && t[i - 1].got.Some?
      && (a.ok ==> NextIs(t, i, if t[i - 1].got.value.search.NoPath? && l > 0 then BeginEnter(l - 1, None) else Sleep(None)))
    case CompletedEnter(l, Some(a)) => a.ok ==> NextIs(t, i, PrepareEnter(l, None))
    case PrepareEnter(l, Some(_)) =>
      i + 1 < |t| && t[i + 1].FinishEnter? && t[i + 1].lvl == l && LastNetwork(t[..i]) == Some(t[i + 1].network)
    case FinishEnter(l, n, Some(_)) => i + 1 < |t| && t[i + 1] == MarkEntered(l, n)
    case Sleep(Some(a)) => i > 0 && (!a.cancelled ==> WakesUp(t, i))
    case _ => true
  }

  /** What a sleep that was not cancelled leads back to. */
  predicate WakesUp(t: seq<Event>, i: nat)
    requires 0 < i < |t|
  {
    match t[i - 1]
    case Retrieve(false, Some(b)) => b.net.NotBootstrapped? ==> NextIs(t, i, Retrieve(false, None))
    case Evaluate(n, Some(b)) => b.eval.AskAgain? || b.eval.Unreachable? ==> NextIs(t, i, Evaluate(n, None))
    case AbortEnter(l, _) =>
      && i > 1 && t[i - 2].SearchPath? && t[i - 2].got.Some?
      && (t[i - 2].got.value.search.ExecuteFailure? && ExecFailures(t[..i]) < MAX_EXEC_FAILURES ==>
            NextIs(t, i, BeginEnter(l, None)))
    case _ => true
  }

  /** A call that is owed is made. */
  lemma NextCall(t: seq<Event>, i: nat)
    requires Prompt(t) && Owed(Observed(t)).None? && i < |t|
    ensures Owed(Observed(t[..i + 1])).Some? ==> NextIs(t, i, Owed(Observed(t[..i + 1])).value)
  {
    if i + 1 == |t| {
      assert t[..i + 1] == t;
    } else {
      DueAt(t, i + 1);
    }
  }

  lemma LegitKeepsFailures(m: Monitor, e: Event, n: nat)
    requires Legit(m, e) && (m.last.BeginEnter? ==> m.search.None?)
    requires n == m.failures + if m.search == Some(ExecuteFailure) then 1 else 0
    ensures
      var m' := Observe(m, e);
      && (m'.last.BeginEnter? ==> m'.search.None?)
      && m'.failures + (if m'.search == Some(ExecuteFailure) then 1 else 0) ==
         if Grants(e) then 0
         else n + if e.SearchPath? && e.got.Some? && e.got.value.search.ExecuteFailure? then 1 else 0
  {}

  lemma {:induction false} FailuresObserved(t: seq<Event>)
    requires Legal(t)
    ensures
      var m := Observed(t);
      && (m.last.BeginEnter? ==> m.search.None?)
      && ExecFailures(t) == m.failures + if m.search == Some(ExecuteFailure) then 1 else 0
  {
    if t != [] {
      var before := t[..|t| - 1];
      FailuresObserved(before);
      LegitKeepsFailures(Observed(before), t[|t| - 1], ExecFailures(before));
    }
  }

  /** The monitor after an answered call. */
  lemma AnsweredObserved(t: seq<Event>, i: nat)
    requires Legal(t) && i < |t| && Awaited(t[i]) && t[i].got.Some?
    ensures
      var m := Observed(t[..i + 1]);
      m.last == t[i] && !m.dropped && m.network == LastNetwork(t[..i + 1])
  {
    LegalAt(t, i);
    ObservedStep(t, i);
    NetworkObserved(t[..i + 1]);
  }

  lemma SearchKept(m: Monitor, search: Event, abort: Event)
    requires search.SearchPath? && search.got.Some? && abort.AbortEnter?
    ensures Observe(Observe(m, search), abort).search == Some(search.got.value.search)
  {}

  lemma AbortFollowsSearch(t: seq<Event>, i: nat)
    requires Legal(t) && i < |t| && t[i].AbortEnter?
    ensures i > 0 && t[i - 1].SearchPath? && t[i - 1].lvl == t[i].lvl && t[i - 1].got.Some?
  {
    LegalAt(t, i);
    if i > 0 {
      LastObserved(t, i);
    }
  }

  lemma SearchObserved(t: seq<Event>, i: nat)
    requires Legal(t) && i < |t| && t[i].AbortEnter?
    ensures i > 0 && t[i - 1].SearchPath? && t[i - 1].lvl == t[i].lvl && t[i - 1].got.Some?
    ensures Observed(t[..i + 1]).search == Some(t[i - 1].got.value.search)
  {
    AbortFollowsSearch(t, i);
    ObservedStep(t, i - 1);
    ObservedStep(t, i);
    SearchKept(Observed(t[..i - 1]), t[i - 1], t[i]);
  }

  lemma NetworkUnchanged(t: seq<Event>, i: nat)
    requires i < |t| && !t[i].Retrieve?
    ensures LastNetwork(t[..i + 1]) == LastNetwork(t[..i])
  {
    assert t[..i + 1][..i] == t[..i];
  }

  /** A sleep remembers the call before it and changes nothing else of use. */
  lemma SleepKeeps(m: Monitor, e: Event)
    requires e.Sleep?
    ensures Observe(m, e).slept == m.last && Observe(m, e).search == m.search && Observe(m, e).failures == m.failures
  {}

  lemma SleptObserved(t: seq<Event>, i: nat)
    requires 0 < i < |t| && t[i].Sleep?
    ensures Observed(t[..i + 1]).slept == t[i - 1]
    ensures Observed(t[..i + 1]).search == Observed(t[..i]).search
    ensures Observed(t[..i + 1]).failures == Observed(t[..i]).failures
  {
    LastObserved(t, i);
    ObservedStep(t, i);
    SleepKeeps(Observed(t[..i]), t[i]);
  }

  /** What was observed at an answered call, and the call made for what it owes. */
  predicate Witnessed(t: seq<Event>, i: nat, m: Monitor)
    requires i < |t|
  {
    && Awaited(t[i]) && t[i].got.Some? && m.last == t[i] && !m.dropped
    && (Owed(m).Some? ==> NextIs(t, i, Owed(m).value))
  }

  lemma WitnessedAt(t: seq<Event>, i: nat)
    requires Legal(t) && Prompt(t) && Owed(Observed(t)).None? && i < |t| && Awaited(t[i]) && t[i].got.Some?
    ensures Witnessed(t, i, Observed(t[..i + 1]))
  {
    AnsweredObserved(t, i);
    NextCall(t, i);
  }

  lemma WakeLeadsOn(t: seq<Event>, i: nat, m: Monitor)
    requires 0 < i < |t| && t[i].Sleep? && Witnessed(t, i, m) && m.slept == t[i - 1]
    requires t[i - 1].AbortEnter? ==>
      && i > 1 && t[i - 2].SearchPath? && t[i - 2].got.Some? && m.search == Some(t[i - 2].got.value.search)
      && ExecFailures(t[..i]) == m.failures + if m.search == Some(ExecuteFailure) then 1 else 0
    ensures LeadsOn(t, i)
  {}

  /** Nothing but a sleep or the first data precedes a sleep that is not owed, so every sleep has a call
      before it. */
  lemma SleepIsOwed(t: seq<Event>, i: nat)
    requires Prompt(t) && i < |t| && t[i].Sleep?
    ensures i > 0
  {
    DueAt(t, i);
  }

  lemma SleepObserved(t: seq<Event>, i: nat)
    requires Legal(t) && 0 < i < |t| && t[i].Sleep? && t[i - 1].AbortEnter?
    ensures i > 1 && t[i - 2].SearchPath? && t[i - 2].got.Some?
    ensures
      var m := Observed(t[..i + 1]);
      && m.search == Some(t[i - 2].got.value.search)
      && ExecFailures(t[..i]) == m.failures + if m.search == Some(ExecuteFailure) then 1 else 0
  {
    SearchObserved(t, i - 1);
    SleptObserved(t, i);
    LegalPrefix(t, i);
    FailuresObserved(t[..i]);
  }

  lemma SleepLeadsOn(t: seq<Event>, i: nat)
    requires Legal(t) && Prompt(t) && Owed(Observed(t)).None? && i < |t| && t[i].Sleep? && t[i].got.Some?
    ensures LeadsOn(t, i)
  {
    SleepIsOwed(t, i);
    WitnessedAt(t, i);
    SleptObserved(t, i);
    if t[i - 1].AbortEnter? {
      SleepObserved(t, i);
    }
    WakeLeadsOn(t, i, Observed(t[..i + 1]));
  }

  lemma {:induction false} LegalPrefix(t: seq<Event>, k: nat)
    requires Legal(t) && k <= |t|
    ensures Legal(t[..k])
  {
    if k < |t| {
      LegalPrefix(t[..|t| - 1], k);
      assert t[..|t| - 1][..k] == t[..k];
    } else {
      assert t[..k] == t;
    }
  }

  lemma AbortLeadsOn(t: seq<Event>, i: nat, m: Monitor)
    requires 0 < i < |t| && t[i].AbortEnter? && Witnessed(t, i, m)
    requires t[i - 1].SearchPath? && t[i - 1].lvl == t[i].lvl && t[i - 1].got.Some?
    requires m.search == Some(t[i - 1].got.value.search)
    ensures LeadsOn(t, i)
  {}

  lemma DataLeadsOn(t: seq<Event>, i: nat, m: Monitor)
    requires i < |t| && t[i].Retrieve? && Witnessed(t, i, m)
    ensures LeadsOn(t, i)
  {}

  lemma CallLeadsOn(t: seq<Event>, i: nat, m: Monitor)
    requires i < |t| && !t[i].Retrieve? && !t[i].Sleep? && !t[i].AbortEnter? && Witnessed(t, i, m)
    requires m.network == LastNetwork(t[..i])
    requires t[i].AskCommit? || t[i].PrepareEnter? ==> m.network.Some?
    ensures LeadsOn(t, i)
  {}

  lemma NetworkKnown(t: seq<Event>, i: nat)
    requires Legal(t) && i < |t| && Awaited(t[i]) && t[i].got.Some? && !t[i].Retrieve?
    ensures Observed(t[..i + 1]).network == LastNetwork(t[..i])
    ensures t[i].AskCommit? || t[i].PrepareEnter? ==> LastNetwork(t[..i]).Some?
  {
    AnsweredObserved(t, i);
    NetworkUnchanged(t, i);
    LegalAt(t, i);
    NetworkObserved(t[..i]);
  }

  /** Every answered call leads to the call that is due. */
  lemma AnswerLeadsOn(t: seq<Event>, i: nat)
    requires Legal(t) && Prompt(t) && Owed(Observed(t)).None? && i < |t|
    ensures LeadsOn(t, i)
  {
    if Awaited(t[i]) && t[i].got.Some? {
      WitnessedAt(t, i);
      if t[i].Sleep? {
        SleepLeadsOn(t, i);
      } else if t[i].AbortEnter? {
        SearchObserved(t, i);
        AbortLeadsOn(t, i, Observed(t[..i + 1]));
      } else if t[i].Retrieve? {
        DataLeadsOn(t, i, Observed(t[..i + 1]));
      } else {
        NetworkKnown(t, i);
        CallLeadsOn(t, i, Observed(t[..i + 1]));
      }
    }
  }

  // ---------------------------------------------------------------- all of it

  /** The laws of a trace that has ended: every answer leads to the call that is due, entries are as
      decided, granted levels given back, attempts and retries bounded. */
  ghost predicate Lawful(t: seq<Event>) {
    && (forall i :: 0 <= i < |t| ==> LeadsOn(t, i))
    && (forall i :: 0 <= i < |t| && t[i].CompletedEnter? ==> AsDecided(t, i))
    && (forall i :: 0 <= i < |t| && Grants(t[i]) ==> GivenBack(t, i))
    && (forall i, j :: 0 <= i < j <= |t| && Grants(t[i]) && OneCommit(t, i, j) ==>
          Begins(t, i, j) <= t[i].got.value.eval.lvl + MAX_EXEC_FAILURES)
    && (forall i, j :: 0 <= i < j <= |t| && TakesSlot(t[i]) && OneCommit(t, i, j) ==>
          Unreachables(t, i, j) <= EVALUATE_ENTER_UNREACHABLE_RETRIES + 1)
  }

  lemma LegalIsLawful(t: seq<Event>)
    requires Legal(t) && !Observed(t).held && Prompt(t) && Owed(Observed(t)).None?
    ensures Lawful(t)
  {
    forall i | 0 <= i < |t| ensures LeadsOn(t, i) {
      AnswerLeadsOn(t, i);
    }
    forall i | 0 <= i < |t| && t[i].CompletedEnter? ensures AsDecided(t, i) {
      EntryAsDecided(t, i);
    }
    forall i | 0 <= i < |t| && Grants(t[i]) ensures GivenBack(t, i) {
      GrantReleased(t, i);
    }
    forall i, j | 0 <= i < j <= |t| && Grants(t[i]) && OneCommit(t, i, j)
      ensures Begins(t, i, j) <= t[i].got.value.eval.lvl + MAX_EXEC_FAILURES
    {
      BeginsBounded(t, i, j);
    }
    forall i, j | 0 <= i < j <= |t| && TakesSlot(t[i]) && OneCommit(t, i, j)
      ensures Unreachables(t, i, j) <= EVALUATE_ENTER_UNREACHABLE_RETRIES + 1
    {
      UnreachableBounded(t, i, j);
    }
  }
}
