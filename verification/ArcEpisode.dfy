/**
  The per-arc negotiation (`run_arc_handler`, `EnterGuard` and `CommitGuard` in
  `crates/ntk-hooking/src/arc.rs`), proved against a state machine of its awaits, and the machine
  against the laws of `ArcTrace`.

  A run is driven by the finite sequence of answers its awaits receive; when the sequence ends the
  handler is dropped at the await it has reached. Every prefix of every run, and every point at which
  the handler can be dropped, is such a sequence.
 */
module ArcEpisode {
  import opened Prelude
  import opened ArcTrace

  // ---------------------------------------------------------------- the state machine

  /** The negotiation of one granted level; `armed` while its guard still has to release it. */
  datatype Episode = Episode(network: int, lvl: nat, askLvl: nat, failures: nat, armed: bool)

  datatype AfterAbort = GoDown | TryAgain | GiveUp

  /** The guards alive at an await: the commit slot, and the level an armed guard releases. */
  datatype Guards = Guards(slot: bool, armed: Option<nat>)

  const NO_GUARDS: Guards := Guards(false, None)

  /** The await a handler is at. */
  datatype Control =
    | Discovering
    | NotReady
    | Authorising
    | Deciding(network: int)
    | Asking(network: int)
    | Evaluating(network: int, unreachable: nat)
    | Waiting(network: int, unreachable: nat)
    | Beginning(ep: Episode)
    | Searching(ep: Episode)
    | Aborting(ep: Episode, next: AfterAbort)
    | Resting(ep: Episode)
    | Completing(ep: Episode)
    | Preparing(ep: Episode)
    | Finishing(ep: Episode)
    | Pausing(guards: Guards)

  function EpisodeGuards(ep: Episode): Guards {
    Guards(true, if ep.armed then Some(ep.lvl) else None)
  }

  function GuardsOf(c: Control): Guards {
    match c
    case Evaluating(_, _) => Guards(true, None)
    case Waiting(_, _) => Guards(true, None)
    case Pausing(g) => g
    case Discovering => NO_GUARDS
    case NotReady => NO_GUARDS
    case Authorising => NO_GUARDS
    case Deciding(_) => NO_GUARDS
    case Asking(_) => NO_GUARDS
    case _ => EpisodeGuards(c.ep)
  }

  /** What dropping the guards does, the inner one first. */
  function Drop(g: Guards): seq<Event> {
    (if g.armed.Some? then [DropRelease(g.armed.value)] else []) + (if g.slot then [EndCommit] else [])
  }

  function Call(c: Control, got: Got): Event {
    match c
    case Discovering => Retrieve(false, got)
    case NotReady => Sleep(got)
    case Authorising => Retrieve(true, got)
    case Deciding(n) => DecideMerge(n, got)
    case Asking(_) => AskCommit(got)
    case Evaluating(n, _) => Evaluate(n, got)
    case Waiting(_, _) => Sleep(got)
    case Beginning(ep) => BeginEnter(ep.askLvl, got)
    case Searching(ep) => SearchPath(ep.askLvl, got)
    case Aborting(ep, _) => AbortEnter(ep.askLvl, got)
    case Resting(_) => Sleep(got)
    case Completing(ep) => CompletedEnter(ep.askLvl, got)
    case Preparing(ep) => PrepareEnter(ep.askLvl, got)
    case Finishing(ep) => FinishEnter(ep.askLvl, ep.network, got)
    case Pausing(_) => Sleep(got)
  }

  /** A release call succeeded at the level asked for: it disarms the guard only if that is the level
      the guard holds. */
  function Disarmed(ep: Episode): Episode {
    ep.(armed := ep.armed && ep.askLvl != ep.lvl)
  }

  /** Go on at another await, redo the handler, or stop, with a last event if the entry is made. */
  datatype Move = Goto(to: Control) | Redo(left: Guards) | Stop(entered: Option<Event>, left: Guards)

  function Respond(c: Control, a: Answer): Move {
    match c
    case Discovering =>
      if a.net.NotBootstrapped? then Goto(NotReady)
      else if !Foreign(a) then Stop(None, NO_GUARDS)
      else (match a.direction
        case Proceed => Goto(Asking(a.net.networkId))
        case Wait => Goto(Pausing(NO_GUARDS))
        case AskCoordinator => Goto(Authorising))
    case NotReady => if a.cancelled then Stop(None, NO_GUARDS) else Goto(Discovering)
    case Authorising => if a.net.Data? then Goto(Deciding(a.net.networkId)) else Stop(None, NO_GUARDS)
    case Deciding(n) => Goto(if a.mergeAccepted then Asking(n) else Pausing(NO_GUARDS))
    case Asking(n) => Goto(if a.slotGranted then Evaluating(n, 0) else Pausing(NO_GUARDS))
    case Evaluating(n, u) => (
      match a.eval
      case Accept(l) => Goto(Beginning(Episode(n, l, l, 0, true)))
      case AskAgain => Goto(Waiting(n, u))
      case IgnoreNetwork => Goto(Pausing(Guards(true, None)))
      case Unreachable =>
        if u < EVALUATE_ENTER_UNREACHABLE_RETRIES then Goto(Waiting(n, u + 1)) else Stop(None, Guards(true, None))
      case EvalFailed => Stop(None, Guards(true, None)))
    case Waiting(n, u) => if a.cancelled then Stop(None, Guards(true, None)) else Goto(Evaluating(n, u))
    case Beginning(ep) => (
      match a.begin
      case Begun => Goto(Searching(ep))
      case AlreadyEntering => Goto(Pausing(EpisodeGuards(ep)))
      case BeginFailed => Stop(None, EpisodeGuards(ep)))
    case Searching(ep) => (
      match a.search
      case NoPath => Goto(Aborting(ep, if ep.askLvl > 0 then GoDown else GiveUp))
      case ExecuteFailure => Goto(Aborting(ep, TryAgain))
      case OtherError => Stop(None, EpisodeGuards(ep))
      case Entry(_) => Goto(if MayEnter(a, ep.askLvl, Some(ep.network)) then Completing(ep) else Aborting(ep, GiveUp)))
    case Aborting(ep, next) =>
      if !a.ok then Stop(None, EpisodeGuards(ep)) else Goto(Aborted(Disarmed(ep), next))
    case Resting(ep) => if a.cancelled then Stop(None, EpisodeGuards(ep)) else Goto(Beginning(ep))
    case Completing(ep) => if a.ok then Goto(Preparing(Disarmed(ep))) else Stop(None, EpisodeGuards(ep))
    case Preparing(ep) => Goto(Finishing(ep))
    case Finishing(ep) => Stop(Some(MarkEntered(ep.askLvl, ep.network)), EpisodeGuards(ep))
    case Pausing(g) => if a.cancelled then Stop(None, g) else Redo(g)
  }

  /** After the level was given back. */
  function Aborted(ep: Episode, next: AfterAbort): Control {
    match next
    case GoDown => Beginning(ep.(askLvl := if ep.askLvl > 0 then ep.askLvl - 1 else 0))
    case TryAgain =>
      if ep.failures + 1 >= MAX_EXEC_FAILURES then Pausing(EpisodeGuards(ep)) else Resting(ep.(failures := ep.failures + 1))
    case GiveUp => Pausing(EpisodeGuards(ep))
  }

  /** The trace of a handler at the await `c`, after the calls `t`. */
  function Play(t: seq<Event>, c: Control, answers: seq<Answer>, i: nat): seq<Event>
    requires i <= |answers|
    decreases |answers| - i, 0
  {
    if i == |answers| then t + [Call(c, None)] + Drop(GuardsOf(c))
    else
      var u := t + [Call(c, Some(answers[i]))];
      match Respond(c, answers[i])
      case Goto(to) => Play(u, to, answers, i + 1)
      case Redo(g) => PlayRound(u + Drop(g), answers, i + 1)
      case Stop(None, g) => u + Drop(g)
      case Stop(Some(e), g) => u + [e] + Drop(g)
  }

  /** The trace of a handler at the top of its outer loop. */
  function PlayRound(t: seq<Event>, answers: seq<Answer>, i: nat): seq<Event>
    requires i <= |answers|
    decreases |answers| - i, 1
  {
    if i < |answers| && (answers[i].cancelled || !answers[i].amReal) then t else Play(t, Discovering, answers, i)
  }

  // ---------------------------------------------------------------- the machine obeys the laws

  /** The guards are those the calls so far demand. */
  predicate GuardsMatch(g: Guards, m: Monitor) {
    && m.held == g.slot
    && (g.armed.Some? ==> m.held && m.grant == g.armed && !m.released)
    && (m.held && m.grant.Some? && g.armed.None? ==> m.released)
  }

  predicate InEpisode(ep: Episode, m: Monitor) {
    && m.held && m.grant == Some(ep.lvl) && m.network == Some(ep.network) && ep.askLvl <= ep.lvl
    && (ep.armed <==> !m.released)
    && ep.failures < MAX_EXEC_FAILURES
  }

  /** An attempt under way: the level asked for and the failures so far. */
  predicate Attempting(ep: Episode, m: Monitor) {
    InEpisode(ep, m) && m.asked == ep.askLvl && m.begins > 0 && m.failures == ep.failures
  }

  /** The last call was the search of this attempt, answered with `m.search`. */
  predicate Searched(ep: Episode, m: Monitor) {
    && Attempting(ep, m) && m.last.SearchPath? && m.last.lvl == ep.askLvl && m.last.got.Some?
    && m.search == Some(m.last.got.value.search)
  }

  /** The await fits the calls made so far. */
  predicate Tracks(c: Control, m: Monitor) {
    && !m.dropped
    && match c
       case Discovering => !m.held
       case NotReady => !m.held
       case Authorising => !m.held && Legit(m, Retrieve(true, None))
       case Deciding(n) => !m.held && m.network == Some(n) && Legit(m, DecideMerge(n, None))
       case Asking(n) => !m.held && m.network == Some(n) && Legit(m, AskCommit(None))
       case Evaluating(n, u) => Legit(m, Evaluate(n, None)) && m.unreachable == u
       case Waiting(n, u) => Legit(m, Evaluate(n, None)) && m.unreachable == u
       case Beginning(ep) =>
         && InEpisode(ep, m) && Legit(m, BeginEnter(ep.askLvl, None))
         && ep.failures == m.failures + if m.search == Some(ExecuteFailure) then 1 else 0
       case Searching(ep) => Attempting(ep, m) && Legit(m, SearchPath(ep.askLvl, None))
       case Aborting(ep, next) =>
         && Searched(ep, m) && Legit(m, AbortEnter(ep.askLvl, None))
         && (next.GoDown? ==> m.search == Some(NoPath) && ep.askLvl > 0)
         && (next.TryAgain? ==> m.search == Some(ExecuteFailure))
         && (next.GiveUp? ==> m.search != Some(ExecuteFailure) && (m.search == Some(NoPath) ==> ep.askLvl == 0))
       case Resting(ep) =>
         && InEpisode(ep, m) && m.asked == ep.askLvl && m.begins > 0
         && m.search == Some(ExecuteFailure) && ep.failures == m.failures + 1
       case Completing(ep) => Searched(ep, m) && Legit(m, CompletedEnter(ep.askLvl, None))
       case Preparing(ep) => InEpisode(ep, m) && Legit(m, PrepareEnter(ep.askLvl, None))
       case Finishing(ep) => InEpisode(ep, m) && Legit(m, FinishEnter(ep.askLvl, ep.network, None))
       case Pausing(g) => GuardsMatch(g, m)
  }

  predicate Sleeps(c: Control) {
    c.NotReady? || c.Waiting? || c.Resting? || c.Pausing?
  }

  /** What an await that sleeps leads back to. */
  function WakesTo(c: Control): Option<Event> {
    match c
    case NotReady => Some(Retrieve(false, None))
    case Waiting(n, _) => Some(Evaluate(n, None))
    case Resting(ep) => Some(BeginEnter(ep.askLvl, None))
    case _ => None
  }

  /** The await is the one owed. */
  predicate Owes(c: Control, m: Monitor) {
    && Due(m, Call(c, None))
    && (Sleeps(c) ==> AfterSleep(m.last, m) == WakesTo(c))
  }

  lemma CallIsLegit(c: Control, m: Monitor, got: Got)
    requires Tracks(c, m)
    ensures Legit(m, Call(c, got))
  {}

  lemma CallIsDue(c: Control, m: Monitor, got: Got)
    requires Owes(c, m)
    ensures Due(m, Call(c, got))
  {}

  /** A handler dropped at its await drops the right guards. */
  lemma DroppedAtAwait(c: Control, m: Monitor)
    requires Tracks(c, m)
    ensures GuardsMatch(GuardsOf(c), Observe(m, Call(c, None)))
  {}

  /** The move fits the calls made so far. */
  predicate Fits(move: Move, m: Monitor) {
    && !m.dropped
    && match move
       case Goto(to) => Tracks(to, m)
       case Redo(g) => GuardsMatch(g, m)
       case Stop(e, g) => GuardsMatch(g, m) && (e.Some? ==> e.value.MarkEntered? && Legit(m, e.value))
  }

  lemma DiscoveryTracks(c: Control, m: Monitor, a: Answer)
    requires Tracks(c, m)
    requires c.Discovering? || c.NotReady? || c.Authorising? || c.Deciding? || c.Asking? || c.Pausing?
    ensures Fits(Respond(c, a), Observe(m, Call(c, Some(a))))
  {}

  lemma EvaluationTracks(c: Control, m: Monitor, a: Answer)
    requires Tracks(c, m) && (c.Evaluating? || c.Waiting?)
    ensures Fits(Respond(c, a), Observe(m, Call(c, Some(a))))
  {}

  lemma BeginTracks(c: Control, m: Monitor, a: Answer)
    requires Tracks(c, m) && (c.Beginning? || c.Resting?)
    ensures Fits(Respond(c, a), Observe(m, Call(c, Some(a))))
  {}

  lemma SearchTracks(c: Control, m: Monitor, a: Answer)
    requires Tracks(c, m) && c.Searching?
    ensures Fits(Respond(c, a), Observe(m, Call(c, Some(a))))
  {}

  lemma AbortTracks(ep: Episode, next: AfterAbort, m: Monitor, a: Answer)
    requires Tracks(Aborting(ep, next), m)
    ensures Fits(Respond(Aborting(ep, next), a), Observe(m, AbortEnter(ep.askLvl, Some(a))))
  {}

  lemma CompletionTracks(c: Control, m: Monitor, a: Answer)
    requires Tracks(c, m) && (c.Completing? || c.Preparing? || c.Finishing?)
    ensures Fits(Respond(c, a), Observe(m, Call(c, Some(a))))
  {}

  lemma RespondTracks(c: Control, m: Monitor, a: Answer)
    requires Tracks(c, m)
    ensures Fits(Respond(c, a), Observe(m, Call(c, Some(a))))
  {
    match c
    case Evaluating(_, _) => EvaluationTracks(c, m, a);
    case Waiting(_, _) => EvaluationTracks(c, m, a);
    case Beginning(_) => BeginTracks(c, m, a);
    case Searching(_) => SearchTracks(c, m, a);
    case Resting(_) => BeginTracks(c, m, a);
    case Aborting(ep, next) => AbortTracks(ep, next, m, a);
    case Completing(_) => CompletionTracks(c, m, a);
    case Preparing(_) => CompletionTracks(c, m, a);
    case Finishing(_) => CompletionTracks(c, m, a);
    case _ => DiscoveryTracks(c, m, a);
  }

  /** The move is the one owed. */
  predicate Settles(move: Move, m: Monitor) {
    match move
    case Goto(to) => Owes(to, m)
    case Redo(g) => Owed(m).None? && m.redo
    case Stop(e, g) => !m.redo && if e.Some? then Due(m, e.value) else Owed(m).None?
  }

  lemma DiscoverySettles(c: Control, m: Monitor, a: Answer)
    requires Tracks(c, m) && Owes(c, m)
    requires c.Discovering? || c.NotReady? || c.Authorising? || c.Deciding? || c.Asking? || c.Pausing?
    ensures Settles(Respond(c, a), Observe(m, Call(c, Some(a))))
  {}

  lemma EvaluationSettles(c: Control, m: Monitor, a: Answer)
    requires Tracks(c, m) && Owes(c, m) && (c.Evaluating? || c.Waiting?)
    ensures Settles(Respond(c, a), Observe(m, Call(c, Some(a))))
  {}

  lemma AttemptSettles(c: Control, m: Monitor, a: Answer)
    requires Tracks(c, m) && Owes(c, m) && (c.Beginning? || c.Searching? || c.Resting?)
    ensures Settles(Respond(c, a), Observe(m, Call(c, Some(a))))
  {}

  lemma AbortSettles(ep: Episode, next: AfterAbort, m: Monitor, a: Answer)
    requires Tracks(Aborting(ep, next), m) && Owes(Aborting(ep, next), m)
    ensures Settles(Respond(Aborting(ep, next), a), Observe(m, AbortEnter(ep.askLvl, Some(a))))
  {}

  lemma CompletionSettles(c: Control, m: Monitor, a: Answer)
    requires Tracks(c, m) && Owes(c, m) && (c.Completing? || c.Preparing? || c.Finishing?)
    ensures Settles(Respond(c, a), Observe(m, Call(c, Some(a))))
  {}

  /** Every answer at every await leads to the call it makes due. */
  lemma RespondSettles(c: Control, m: Monitor, a: Answer)
    requires Tracks(c, m) && Owes(c, m)
    ensures Settles(Respond(c, a), Observe(m, Call(c, Some(a))))
  {
    match c
    case Evaluating(_, _) => EvaluationSettles(c, m, a);
    case Waiting(_, _) => EvaluationSettles(c, m, a);
    case Beginning(_) => AttemptSettles(c, m, a);
    case Searching(_) => AttemptSettles(c, m, a);
    case Resting(_) => AttemptSettles(c, m, a);
    case Aborting(ep, next) => AbortSettles(ep, next, m, a);
    case Completing(_) => CompletionSettles(c, m, a);
    case Preparing(_) => CompletionSettles(c, m, a);
    case Finishing(_) => CompletionSettles(c, m, a);
    case _ => DiscoverySettles(c, m, a);
  }

  /** A legal and prompt trace that recorded the first `i` answers. */
  predicate Recorded(t: seq<Event>, answers: seq<Answer>, i: nat)
    requires i <= |answers|
  {
    Legal(t) && Prompt(t) && Received(t) == answers[..i]
  }

  /** A call that is not awaited. */
  lemma Silently(t: seq<Event>, e: Event)
    requires Legal(t) && Legit(Observed(t), e) && Prompt(t) && Due(Observed(t), e) && !Awaited(e)
    ensures Legal(t + [e]) && Prompt(t + [e])
    ensures Received(t + [e]) == Received(t) && Observed(t + [e]) == Observe(Observed(t), e)
  {
    Extend(t, e);
  }

  /** What leaving amounts to: the guards dropped and nothing owed. */
  predicate Departed(m: Monitor, m': Monitor) {
    !m'.held && Owed(m').None? && m'.dropped == m.dropped && m'.redo == m.redo
  }

  lemma DropArmed(m: Monitor, g: Guards)
    requires GuardsMatch(g, m) && g.armed.Some? && Owed(m).None?
    ensures Legit(m, DropRelease(g.armed.value)) && Due(m, DropRelease(g.armed.value))
    ensures
      var m' := Observe(m, DropRelease(g.armed.value));
      Legit(m', EndCommit) && Due(m', EndCommit) && Departed(m, Observe(m', EndCommit))
  {}

  lemma DropSlot(m: Monitor, g: Guards)
    requires GuardsMatch(g, m) && g.armed.None? && g.slot && Owed(m).None?
    ensures Legit(m, EndCommit) && Due(m, EndCommit) && Departed(m, Observe(m, EndCommit))
  {}

  /** Dropping the guards ends a trace soundly. */
  lemma DropGuards(t: seq<Event>, g: Guards)
    requires Legal(t) && Prompt(t) && GuardsMatch(g, Observed(t)) && Owed(Observed(t)).None?
    ensures Legal(t + Drop(g)) && Prompt(t + Drop(g)) && Received(t + Drop(g)) == Received(t)
    ensures Departed(Observed(t), Observed(t + Drop(g)))
  {
    if g.armed.Some? {
      var e := DropRelease(g.armed.value);
      DropArmed(Observed(t), g);
      Silently(t, e);
      Silently(t + [e], EndCommit);
      assert t + Drop(g) == t + [e] + [EndCommit];
    } else if g.slot {
      DropSlot(Observed(t), g);
      Silently(t, EndCommit);
      assert t + Drop(g) == t + [EndCommit];
    } else {
      assert t + Drop(g) == t;
    }
  }

  /** One await that is answered. */
  lemma AnswerRecorded(t: seq<Event>, c: Control, answers: seq<Answer>, i: nat)
    requires i < |answers| && Recorded(t, answers, i) && Tracks(c, Observed(t)) && Owes(c, Observed(t))
    ensures Recorded(t + [Call(c, Some(answers[i]))], answers, i + 1)
    ensures Observed(t + [Call(c, Some(answers[i]))]) == Observe(Observed(t), Call(c, Some(answers[i])))
  {
    CallIsLegit(c, Observed(t), Some(answers[i]));
    CallIsDue(c, Observed(t), Some(answers[i]));
    CallIsAwaited(c, Some(answers[i]));
    Await(t, Call(c, Some(answers[i])), answers, i);
  }

  lemma Await(t: seq<Event>, e: Event, answers: seq<Answer>, i: nat)
    requires i < |answers| && Recorded(t, answers, i) && Legit(Observed(t), e) && Due(Observed(t), e)
    requires Awaited(e) && e.got == Some(answers[i])
    ensures Recorded(t + [e], answers, i + 1) && Observed(t + [e]) == Observe(Observed(t), e)
  {
    ExtendLegal(t, e);
    ExtendPrompt(t, e);
    ExtendReceived(t, e, answers, i);
    ExtendObserved(t, e);
  }

  lemma ExtendReceived(t: seq<Event>, e: Event, answers: seq<Answer>, i: nat)
    requires i < |answers| && Received(t) == answers[..i] && Awaited(e) && e.got == Some(answers[i])
    ensures Received(t + [e]) == answers[..i + 1]
  {
    assert (t + [e])[..|t|] == t;
    assert answers[..i + 1] == answers[..i] + [answers[i]];
  }

  lemma ExtendObserved(t: seq<Event>, e: Event)
    ensures Observed(t + [e]) == Observe(Observed(t), e)
  {
    assert (t + [e])[..|t|] == t;
  }

  lemma CallIsAwaited(c: Control, got: Got)
    ensures Awaited(Call(c, got)) && Call(c, got).got == got
  {}

  lemma EntryMarked(m: Monitor, e: Event, g: Guards)
    requires e.MarkEntered? && Legit(m, e) && Due(m, e) && GuardsMatch(g, m)
    ensures
      var m' := Observe(m, e);
      GuardsMatch(g, m') && Owed(m').None? && m'.redo == m.redo && m'.dropped == m.dropped
  {}

  lemma StopIsSound(u: seq<Event>, e: Option<Event>, g: Guards, answers: seq<Answer>, i: nat)
    requires i <= |answers| && Recorded(u, answers, i) && Fits(Stop(e, g), Observed(u)) && Settles(Stop(e, g), Observed(u))
    ensures Sound((if e.Some? then u + [e.value] else u) + Drop(g), answers)
  {
    if e.Some? {
      EntryMarked(Observed(u), e.value, g);
      Silently(u, e.value);
      DropGuards(u + [e.value], g);
    } else {
      DropGuards(u, g);
    }
  }

  lemma DropIsSound(t: seq<Event>, c: Control, answers: seq<Answer>)
    requires Recorded(t, answers, |answers|) && Tracks(c, Observed(t)) && Owes(c, Observed(t))
    ensures Sound(t + [Call(c, None)] + Drop(GuardsOf(c)), answers)
  {
    CallIsLegit(c, Observed(t), None);
    CallIsAwaited(c, None);
    Extend(t, Call(c, None));
    DroppedAtAwait(c, Observed(t));
    DropGuards(t + [Call(c, None)], GuardsOf(c));
    assert answers[..|answers|] == answers;
  }

  /** Every trace of the machine obeys the laws. */
  lemma {:induction false} PlayIsSound(t: seq<Event>, c: Control, answers: seq<Answer>, i: nat)
    requires i <= |answers| && Recorded(t, answers, i) && Tracks(c, Observed(t)) && Owes(c, Observed(t))
    ensures Sound(Play(t, c, answers, i), answers)
    decreases |answers| - i, 0
  {
    if i == |answers| {
      DropIsSound(t, c, answers);
    } else {
      var u := t + [Call(c, Some(answers[i]))];
      AnswerRecorded(t, c, answers, i);
      RespondTracks(c, Observed(t), answers[i]);
      RespondSettles(c, Observed(t), answers[i]);
      match Respond(c, answers[i])
      case Goto(to) => PlayIsSound(u, to, answers, i + 1);
      case Redo(g) =>
        DropGuards(u, g);
        RoundIsSound(u + Drop(g), answers, i + 1);
      case Stop(e, g) => StopIsSound(u, e, g, answers, i + 1);
    }
  }

  /** A handler at the top of its loop: it may start over and owes nothing. */
  predicate AtTop(m: Monitor) {
    !m.held && !m.dropped && m.redo && Owed(m).None?
  }

  lemma TopOwes(m: Monitor)
    requires AtTop(m)
    ensures Tracks(Discovering, m) && Owes(Discovering, m)
  {}

  lemma {:induction false} RoundIsSound(t: seq<Event>, answers: seq<Answer>, i: nat)
    requires i <= |answers| && Recorded(t, answers, i) && AtTop(Observed(t))
    ensures Sound(PlayRound(t, answers, i), answers)
    decreases |answers| - i, 1
  {
    if i == |answers| || !(answers[i].cancelled || !answers[i].amReal) {
      TopOwes(Observed(t));
      PlayIsSound(t, Discovering, answers, i);
    }
  }

  // ---------------------------------------------------------------- the handler

  /** How a part of the handler is left: its guards dropped, and the handler redone if asked. */
  function Leave(t: seq<Event>, g: Guards, again: bool, answers: seq<Answer>, i: nat): seq<Event>
    requires i <= |answers|
  {
    if again then PlayRound(t + Drop(g), answers, i) else t + Drop(g)
  }

  /** `sleep_or_cancelled` before a redo. */
  method PauseThenRedo(answers: seq<Answer>, start: nat, calls: seq<Event>, ghost g: Guards)
    returns (again: bool, i: nat, t: seq<Event>)
    requires start <= |answers|
    ensures start <= i <= |answers| && (again ==> start < i)
    ensures Play(calls, Pausing(g), answers, start) == Leave(t, g, again, answers, i)
  {
    if start == |answers| {
      return false, start, calls + [Sleep(None)];
    }
    return !answers[start].cancelled, start + 1, calls + [Sleep(Some(answers[start]))];
  }

  /** `EnterGuard::abort`: the call and its answer. The guard is disarmed exactly by a success at the
      level it holds. */
  method GuardedAbort(answers: seq<Answer>, start: nat, calls: seq<Event>, ep: Episode)
    returns (released: bool, i: nat, t: seq<Event>, ep': Episode)
    requires start <= |answers|
    ensures released <==> start < |answers| && answers[start].ok
    ensures ep' == ep.(armed := ep.armed && !(released && ep.askLvl == ep.lvl))
    ensures i == (if start < |answers| then start + 1 else start)
    ensures t == calls + [AbortEnter(ep.askLvl, if start < |answers| then Some(answers[start]) else None)]
  {
    ep' := ep;
    if start == |answers| {
      return false, start, calls + [AbortEnter(ep.askLvl, None)], ep';
    }
    released := answers[start].ok;
    if released && ep.askLvl == ep.lvl {
      ep' := ep'.(armed := false);
    }
    return released, start + 1, calls + [AbortEnter(ep.askLvl, Some(answers[start]))], ep';
  }

  /** Giving the level back and then pausing, with a redo unless cancelled. */
  method GiveUpLevel(answers: seq<Answer>, start: nat, calls: seq<Event>, ep: Episode)
    returns (again: bool, i: nat, t: seq<Event>, ep': Episode)
    requires start <= |answers|
    ensures start <= i <= |answers| && (again ==> start < i) && ep'.lvl == ep.lvl && ep'.network == ep.network
    ensures Play(calls, Aborting(ep, GiveUp), answers, start) == Leave(t, EpisodeGuards(ep'), again, answers, i)
  {
    var released;
    released, i, t, ep' := GuardedAbort(answers, start, calls, ep);
    again := false;
    if released {
      again, i, t := PauseThenRedo(answers, i, t, EpisodeGuards(ep'));
    }
  }

  /** How one attempt to begin ends: the handler is left, an entry is offered, or the attempt is
      repeated. */
  datatype Attempted = Left(again: bool) | Offered(networkId: int, myNetworkId: int) | Repeat

  /** One attempt: claim the level, search a path, give the level back if there is none, and settle
      on what to try next. */
  method Attempt(answers: seq<Answer>, start: nat, calls: seq<Event>, ep: Episode)
    returns (r: Attempted, i: nat, t: seq<Event>, ep': Episode)
    requires start <= |answers|
    ensures start <= i <= |answers| && (r != Left(false) ==> start < i) && ep'.lvl == ep.lvl && ep'.network == ep.network
    ensures r.Left? ==>
      Play(calls, Beginning(ep), answers, start) == Leave(t, EpisodeGuards(ep'), r.again, answers, i)
    ensures r.Repeat? ==> Play(calls, Beginning(ep), answers, start) == Play(t, Beginning(ep'), answers, i)
    ensures r.Offered? ==>
      && i == start + 2 && ep' == ep && answers[start].begin.Begun?
      && answers[start + 1].search == Entry(r.networkId) && r.myNetworkId == answers[start + 1].myNetworkId
      && t == calls + [BeginEnter(ep.askLvl, Some(answers[start]))] + [SearchPath(ep.askLvl, Some(answers[start + 1]))]
  {
    ep' := ep;
    if start == |answers| {
      return Left(false), start, calls + [BeginEnter(ep.askLvl, None)], ep';
    }
    t := calls + [BeginEnter(ep.askLvl, Some(answers[start]))];
    i := start + 1;
    if answers[start].begin.AlreadyEntering? {
      var again;
      again, i, t := PauseThenRedo(answers, i, t, EpisodeGuards(ep));
      return Left(again), i, t, ep';
    }
    if !answers[start].begin.Begun? {
      return Left(false), i, t, ep';
    }
    if i == |answers| {
      return Left(false), i, t + [SearchPath(ep.askLvl, None)], ep';
    }
    t := t + [SearchPath(ep.askLvl, Some(answers[i]))];
    var search := answers[i].search;
    i := i + 1;
    if search.Entry? {
      return Offered(search.networkId, answers[i - 1].myNetworkId), i, t, ep';
    }
    if search.OtherError? {
      return Left(false), i, t, ep';
    }
    r, i, t, ep' := AfterNoEntry(answers, i, t, ep, search.NoPath?);
  }

  /** No entry was offered: the level is given back, then asked one lower or once more. */
  method AfterNoEntry(answers: seq<Answer>, start: nat, calls: seq<Event>, ep: Episode, noPath: bool)
    returns (r: Attempted, i: nat, t: seq<Event>, ep': Episode)
    requires start <= |answers|
    ensures start <= i <= |answers| && !r.Offered? && (r != Left(false) ==> start < i)
    ensures ep'.lvl == ep.lvl && ep'.network == ep.network
    ensures
      var next := if !noPath then TryAgain else if ep.askLvl > 0 then GoDown else GiveUp;
      Play(calls, Aborting(ep, next), answers, start) ==
        if r.Left? then Leave(t, EpisodeGuards(ep'), r.again, answers, i) else Play(t, Beginning(ep'), answers, i)
  {
    var again;
    if noPath && ep.askLvl == 0 {
      again, i, t, ep' := GiveUpLevel(answers, start, calls, ep);
      return Left(again), i, t, ep';
    }
    var released;
    released, i, t, ep' := GuardedAbort(answers, start, calls, ep);
    if !released {
      return Left(false), i, t, ep';
    }
    if noPath {
      ep' := ep'.(askLvl := ep'.askLvl - 1);
      return Repeat, i, t, ep';
    }
    if ep'.failures + 1 >= MAX_EXEC_FAILURES {
      again, i, t := PauseThenRedo(answers, i, t, EpisodeGuards(ep'));
      return Left(again), i, t, ep';
    }
    ep' := ep'.(failures := ep'.failures + 1);
    if i == |answers| {
      return Left(false), i, t + [Sleep(None)], ep';
    }
    var cancelled := answers[i].cancelled;
    t := t + [Sleep(Some(answers[i]))];
    i := i + 1;
    return if cancelled then Left(false) else Repeat, i, t, ep';
  }

  /** The begin/search loop and the completion, from the moment a level is granted. */
  method NegotiateEntry(answers: seq<Answer>, start: nat, calls: seq<Event>, network: int, lvl: nat)
    returns (again: bool, i: nat, t: seq<Event>, ep: Episode)
    requires start <= |answers|
    ensures start <= i <= |answers| && (again ==> start < i) && ep.lvl == lvl
    ensures Play(calls, Beginning(Episode(network, lvl, lvl, 0, true)), answers, start)
      == Leave(t, EpisodeGuards(ep), again, answers, i)
  {
    i, t, ep := start, calls, Episode(network, lvl, lvl, 0, true);
    while true
      invariant start <= i <= |answers| && ep.lvl == lvl && ep.network == network
      invariant Play(calls, Beginning(Episode(network, lvl, lvl, 0, true)), answers, start)
        == Play(t, Beginning(ep), answers, i)
      decreases |answers| - i
    {
      var r;
      r, i, t, ep := Attempt(answers, i, t, ep);
      if r.Left? {
        again := r.again;
        return;
      }
      if r.Offered? {
        again, i, t, ep := FinishNegotiation(answers, i, t, ep, r.networkId, r.myNetworkId);
        return;
      }
    }
  }

  /** After an entry was offered: abort if the target is not the network decided on or was already
      entered, otherwise complete and propagate. */
  method FinishNegotiation(
    answers: seq<Answer>, start: nat, calls: seq<Event>, ep: Episode, entered: int, myNetworkId: int)
    returns (again: bool, i: nat, t: seq<Event>, ep': Episode)
    requires 0 < start <= |answers|
    ensures start <= i <= |answers| && (again ==> start < i) && ep'.lvl == ep.lvl
    ensures
      var enter := entered == ep.network && (ep.askLvl == 0 || myNetworkId != entered);
      Play(calls, if enter then Completing(ep) else Aborting(ep, GiveUp), answers, start)
        == Leave(t, EpisodeGuards(ep'), again, answers, i)
  {
    if entered != ep.network || (ep.askLvl >= 1 && myNetworkId == entered) {
      again, i, t, ep' := GiveUpLevel(answers, start, calls, ep);
      return;
    }
    again, i, ep' := false, start, ep;
    if i == |answers| {
      t := calls + [CompletedEnter(ep.askLvl, None)];
      return;
    }
    t := calls + [CompletedEnter(ep.askLvl, Some(answers[i]))];
    var completed := answers[i].ok;
    i := i + 1;
    if !completed {
      return;
    }
    if ep.askLvl == ep.lvl {
      ep' := ep'.(armed := false);
    }
    i, t := PropagateEntry(answers, i, t, ep');
  }

  /** The propagation of a completed entry. */
  method PropagateEntry(answers: seq<Answer>, start: nat, calls: seq<Event>, ep: Episode) returns (i: nat, t: seq<Event>)
    requires start <= |answers|
    ensures start <= i <= |answers|
    ensures Play(calls, Preparing(ep), answers, start) == t + Drop(EpisodeGuards(ep))
  {
    i := start;
    if i == |answers| {
      return i, calls + [PrepareEnter(ep.askLvl, None)];
    }
    t := calls + [PrepareEnter(ep.askLvl, Some(answers[i]))];
    i := i + 1;
    if i == |answers| {
      return i, t + [FinishEnter(ep.askLvl, ep.network, None)];
    }
    t := t + [FinishEnter(ep.askLvl, ep.network, Some(answers[i]))];
    i := i + 1;
    t := t + [MarkEntered(ep.askLvl, ep.network)];
  }

  /** The evaluation loop: the level the coordinator accepted, or none and whether to redo the
      handler. */
  method EvaluateEnter(answers: seq<Answer>, start: nat, calls: seq<Event>, network: int)
    returns (granted: Option<nat>, again: bool, i: nat, t: seq<Event>)
    requires start <= |answers|
    ensures start <= i <= |answers| && (again || granted.Some? ==> start < i)
    ensures granted.Some? ==> answers[i - 1].eval == Accept(granted.value)
    ensures Play(calls, Evaluating(network, 0), answers, start) ==
      if granted.Some? then Play(t, Beginning(Episode(network, granted.value, granted.value, 0, true)), answers, i)
      else Leave(t, Guards(true, None), again, answers, i)
  {
    granted, again, i, t := None, false, start, calls;
    var unreachableRetries: nat := 0;
    while true
      invariant granted.None? && !again && start <= i <= |answers|
      invariant Play(calls, Evaluating(network, 0), answers, start)
        == Play(t, Evaluating(network, unreachableRetries), answers, i)
      decreases |answers| - i
    {
      if i == |answers| {
        t := t + [Evaluate(network, None)];
        return;
      }
      var eval := answers[i].eval;
      t := t + [Evaluate(network, Some(answers[i]))];
      i := i + 1;
      if eval.Accept? {
        granted := Some(eval.lvl);
        return;
      }
      if eval.IgnoreNetwork? {
        again, i, t := PauseThenRedo(answers, i, t, Guards(true, None));
        return;
      }
      if eval.Unreachable? && unreachableRetries < EVALUATE_ENTER_UNREACHABLE_RETRIES {
        unreachableRetries := unreachableRetries + 1;
      } else if !eval.AskAgain? {
        return;
      }
      if i == |answers| {
        t := t + [Sleep(None)];
        return;
      }
      var cancelled := answers[i].cancelled;
      t := t + [Sleep(Some(answers[i]))];
      i := i + 1;
      if cancelled {
        return;
      }
    }
  }

  /** The commit phase, from the grant of the slot to its release: both guards are dropped on every
      way out. */
  method CommitPhase(answers: seq<Answer>, start: nat, calls: seq<Event>, network: int)
    returns (again: bool, i: nat, t: seq<Event>)
    requires start <= |answers|
    ensures start <= i <= |answers| && (again ==> start < i)
    ensures Play(calls, Evaluating(network, 0), answers, start) == if again then PlayRound(t, answers, i) else t
  {
    var granted;
    granted, again, i, t := EvaluateEnter(answers, start, calls, network);
    var armed: Option<nat> := None;
    if granted.Some? {
      var ep;
      again, i, t, ep := NegotiateEntry(answers, i, t, network, granted.value);
      armed := if ep.armed then granted else None;
    }
    t := t + Drop(Guards(true, armed));
  }

  /** Everything before the commit slot: discovery and the merge decision. `decided` is the network
      to enter, if the arc proceeds. */
  method Discover(answers: seq<Answer>, start: nat, calls: seq<Event>)
    returns (decided: Option<int>, again: bool, i: nat, t: seq<Event>)
    requires start <= |answers|
    ensures start <= i <= |answers| && (again || decided.Some? ==> start < i)
    ensures Play(calls, Discovering, answers, start) ==
      if decided.Some? then Play(t, Asking(decided.value), answers, i) else Leave(t, NO_GUARDS, again, answers, i)
  {
    decided, again, i, t := None, false, start, calls;
    while true
      invariant decided.None? && !again && start <= i <= |answers|
      invariant Play(calls, Discovering, answers, start) == Play(t, Discovering, answers, i)
      decreases |answers| - i
    {
      if i == |answers| {
        t := t + [Retrieve(false, None)];
        return;
      }
      var a := answers[i];
      t := t + [Retrieve(false, Some(a))];
      i := i + 1;
      if a.net.NotBootstrapped? {
        if i == |answers| {
          t := t + [Sleep(None)];
          return;
        }
        var cancelled := answers[i].cancelled;
        t := t + [Sleep(Some(answers[i]))];
        i := i + 1;
        if cancelled {
          return;
        }
        continue;
      }
      if !a.net.Data? || a.net.networkId == a.myNetworkId || !a.net.compatible {
        return;
      }
      decided, again, i, t := DecideDirection(answers, i, t, a.net.networkId, a.direction);
      return;
    }
  }

  /** The merge decision: directly, or after authoritative data and the coordinator's verdict. */
  method DecideDirection(answers: seq<Answer>, start: nat, calls: seq<Event>, offered: int, direction: Direction)
    returns (decided: Option<int>, again: bool, i: nat, t: seq<Event>)
    requires start <= |answers|
    ensures start <= i <= |answers| && (again ==> start < i)
    ensures
      var c := (match direction case Proceed => Asking(offered) case Wait => Pausing(NO_GUARDS) case AskCoordinator => Authorising);
      Play(calls, c, answers, start) ==
        if decided.Some? then Play(t, Asking(decided.value), answers, i) else Leave(t, NO_GUARDS, again, answers, i)
  {
    decided, again, i, t := None, false, start, calls;
    var network := offered;
    var proceed := direction.Proceed?;
    if direction.AskCoordinator? {
      if i == |answers| {
        t := t + [Retrieve(true, None)];
        return;
      }
      t := t + [Retrieve(true, Some(answers[i]))];
      i := i + 1;
      if !answers[i - 1].net.Data? {
        return;
      }
      network := answers[i - 1].net.networkId;
      if i == |answers| {
        t := t + [DecideMerge(network, None)];
        return;
      }
      t := t + [DecideMerge(network, Some(answers[i]))];
      proceed := answers[i].mergeAccepted;
      i := i + 1;
    }
    if proceed {
      decided := Some(network);
    } else {
      again, i, t := PauseThenRedo(answers, i, t, NO_GUARDS);
    }
  }

  /** One pass of the outer loop. */
  method RunRound(answers: seq<Answer>, start: nat, calls: seq<Event>) returns (again: bool, i: nat, t: seq<Event>)
    requires start <= |answers|
    ensures start <= i <= |answers| && (again ==> start < i)
    ensures Play(calls, Discovering, answers, start) == if again then PlayRound(t, answers, i) else t
  {
    var decided;
    decided, again, i, t := Discover(answers, start, calls);
    if decided.None? {
      NothingDropped(t);
      return;
    }
    again, i, t := AskThenCommit(answers, i, t, decided.value);
  }

  lemma NothingDropped(t: seq<Event>)
    ensures t + Drop(NO_GUARDS) == t
  {}

  /** The slot, and what is done with it. */
  method AskThenCommit(answers: seq<Answer>, start: nat, calls: seq<Event>, network: int)
    returns (again: bool, i: nat, t: seq<Event>)
    requires start <= |answers|
    ensures start <= i <= |answers| && (again ==> start < i)
    ensures Play(calls, Asking(network), answers, start) == if again then PlayRound(t, answers, i) else t
  {
    if start == |answers| {
      NothingDropped(calls + [AskCommit(None)]);
      return false, start, calls + [AskCommit(None)];
    }
    t := calls + [AskCommit(Some(answers[start]))];
    i := start + 1;
    if !answers[start].slotGranted {
      again, i, t := PauseThenRedo(answers, i, t, NO_GUARDS);
      NothingDropped(t);
      return;
    }
    again, i, t := CommitPhase(answers, i, t, network);
  }

  /** `run_arc_handler` over any finite run: its calls are those of the machine, so every call was due
      when it was made, the answers are recorded as they came, and the slot is given back. Entries are
      completed only as decided, every granted level is released before the slot is given back, and
      attempts and retries are bounded. */
  method RunArcHandler(answers: seq<Answer>) returns (trace: seq<Event>)
    ensures trace == PlayRound([], answers, 0)
    ensures Sound(trace, answers) && Lawful(trace)
  {
    trace := [];
    var i := 0;
    var again := true;
    while again
      invariant 0 <= i <= |answers|
      invariant PlayRound([], answers, 0) == if again then PlayRound(trace, answers, i) else trace
      decreases |answers| - i, again
    {
      if i < |answers| && (answers[i].cancelled || !answers[i].amReal) {
        again := false;
      } else {
        again, i, trace := RunRound(answers, i, trace);
      }
    }
    RoundIsSound([], answers, 0);
    LegalIsLawful(trace);
  }

  // ---------------------------------------------------------------- a run that enters

  /** Answers that let the arc through at the first attempt. */
  predicate Smooth(answers: seq<Answer>) {
    && |answers| >= 8
    && !answers[0].cancelled && answers[0].amReal && Foreign(answers[0]) && answers[0].direction.Proceed?
    && answers[1].slotGranted && answers[2].eval.Accept? && answers[3].begin.Begun?
    && MayEnter(answers[4], answers[2].eval.lvl, Some(answers[0].net.networkId))
    && answers[5].ok
  }

  lemma SmoothGrant(t: seq<Event>, answers: seq<Answer>)
    requires Smooth(answers)
    ensures
      var n, l := answers[0].net.networkId, answers[2].eval.lvl;
      PlayRound(t, answers, 0) ==
        Play(t + [Retrieve(false, Some(answers[0]))] + [AskCommit(Some(answers[1]))] + [Evaluate(n, Some(answers[2]))],
             Beginning(Episode(n, l, l, 0, true)), answers, 3)
  {
    var n := answers[0].net.networkId;
    var t1 := t + [Retrieve(false, Some(answers[0]))];
    assert PlayRound(t, answers, 0) == Play(t1, Asking(n), answers, 1);
    assert Play(t1, Asking(n), answers, 1) == Play(t1 + [AskCommit(Some(answers[1]))], Evaluating(n, 0), answers, 2);
  }

  lemma SmoothOffer(t: seq<Event>, answers: seq<Answer>, ep: Episode)
    requires Smooth(answers) && ep.askLvl == answers[2].eval.lvl && ep.network == answers[0].net.networkId
    ensures Play(t, Beginning(ep), answers, 3) ==
      Play(t + [BeginEnter(ep.askLvl, Some(answers[3]))] + [SearchPath(ep.askLvl, Some(answers[4]))],
           Completing(ep), answers, 5)
  {
    assert Play(t, Beginning(ep), answers, 3)
      == Play(t + [BeginEnter(ep.askLvl, Some(answers[3]))], Searching(ep), answers, 4);
  }

  lemma SmoothCompletion(t: seq<Event>, answers: seq<Answer>, ep: Episode)
    requires |answers| >= 8 && answers[5].ok && ep.askLvl == ep.lvl
    ensures Play(t, Completing(ep), answers, 5) ==
      t + [CompletedEnter(ep.lvl, Some(answers[5]))] + [PrepareEnter(ep.lvl, Some(answers[6]))]
        + [FinishEnter(ep.lvl, ep.network, Some(answers[7]))] + [MarkEntered(ep.lvl, ep.network)] + [EndCommit]
  {
    var off := ep.(armed := false);
    var t6 := t + [CompletedEnter(ep.lvl, Some(answers[5]))];
    assert Play(t, Completing(ep), answers, 5) == Play(t6, Preparing(off), answers, 6);
    assert Play(t6, Preparing(off), answers, 6)
      == Play(t6 + [PrepareEnter(ep.lvl, Some(answers[6]))], Finishing(off), answers, 7);
    assert Drop(EpisodeGuards(off)) == [EndCommit];
  }

  /** With such answers the arc enters the network it found, at the level it was granted. */
  lemma SmoothEnters(answers: seq<Answer>)
    requires Smooth(answers)
    ensures
      var n, l := answers[0].net.networkId, answers[2].eval.lvl;
      PlayRound([], answers, 0) ==
        [] + [Retrieve(false, Some(answers[0]))] + [AskCommit(Some(answers[1]))] + [Evaluate(n, Some(answers[2]))]
           + [BeginEnter(l, Some(answers[3]))] + [SearchPath(l, Some(answers[4]))]
           + [CompletedEnter(l, Some(answers[5]))] + [PrepareEnter(l, Some(answers[6]))]
           + [FinishEnter(l, n, Some(answers[7]))] + [MarkEntered(l, n)] + [EndCommit]
  {
    var n, l := answers[0].net.networkId, answers[2].eval.lvl;
    var ep := Episode(n, l, l, 0, true);
    var t3 := [] + [Retrieve(false, Some(answers[0]))] + [AskCommit(Some(answers[1]))] + [Evaluate(n, Some(answers[2]))];
    SmoothGrant([], answers);
    SmoothOffer(t3, answers, ep);
    SmoothCompletion(t3 + [BeginEnter(l, Some(answers[3]))] + [SearchPath(l, Some(answers[4]))], answers, ep);
  }
}
