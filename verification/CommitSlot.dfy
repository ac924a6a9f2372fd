/**
  The hooking actor and the exclusive commit slot its arc tasks compete for
  (`crates/ntk-hooking/src/manager.rs`; the arcs' side is `CommitGuard` in
  `crates/ntk-hooking/src/arc.rs`).
 */
module CommitSlot {
  import opened Prelude

  datatype Phase =
    | Discovering | Connectivity | Waiting | Evaluating | Entering(lvl: nat)
    | SameNetwork | IncompatibleTopology | Failed | Entered(askLvl: nat)

  /** `EndCommit` carries no payload in the mailbox; `sender` only names the arc that sent it. */
  datatype Command =
    | AddArc(arc: nat)
    | RemoveArc(arc: nat)
    | SetArcPhase(arc: nat, phase: Phase)
    | MarkEntered(arc: nat, askLvl: nat, entry: int)
    | TryBeginCommit(from: nat)
    | EndCommit(sender: nat)

  datatype Reply = Silent | Done(ok: bool) | Granted(granted: bool)

  /** The actor's own fields: the slot, the arc phases published, the first address chosen, and the
      arcs whose task is running. */
  datatype ActorState = ActorState(
    committing: bool, phases: map<nat, Phase>, chosen: Option<int>, running: set<nat>)

  function HandleSpec(a: ActorState, cmd: Command): (ActorState, Reply) {
    match cmd
    case AddArc(arc) =>
      if arc in a.running then (a, Done(false))
      else (a.(running := a.running + {arc}, phases := a.phases[arc := Discovering]), Done(true))
    case RemoveArc(arc) =>
      (a.(running := a.running - {arc}, phases := a.phases - {arc}), Done(arc in a.running || arc in a.phases))
    case SetArcPhase(arc, phase) => (a.(phases := a.phases[arc := phase]), Silent)
    case MarkEntered(arc, lvl, entry) =>
      (a.(phases := a.phases[arc := Entered(lvl)], chosen := if a.chosen.None? then Some(entry) else a.chosen), Silent)
    case TryBeginCommit(_) => (a.(committing := true), Granted(!a.committing))
    case EndCommit(_) => (a.(committing := false), Silent)
  }

  class Actor {
    var committing: bool
    var phases: map<nat, Phase>
    var chosen: Option<int>
    var running: set<nat>

    ghost function Value(): ActorState
      reads this
    {
      ActorState(committing, phases, chosen, running)
    }

    constructor ()
      ensures Value() == ActorState(false, map[], None, {})
    {
      committing := false;
      phases := map[];
      chosen := None;
      running := {};
    }

    /** `Actor::handle`, one command of the mailbox. */
    method Handle(cmd: Command) returns (reply: Reply)
      modifies this
      ensures (Value(), reply) == HandleSpec(old(Value()), cmd)
    {
      reply := Silent;
      match cmd {
        case AddArc(arc) =>
          if arc in running {
            return Done(false);
          }
          running := running + {arc};
          phases := phases[arc := Discovering];
          return Done(true);
        case RemoveArc(arc) =>
          if arc !in running {
            if arc in phases {
              phases := phases - {arc};
              assert running == running - {arc};
              return Done(true);
            }
            assert phases - {arc} == phases && running == running - {arc};
            return Done(false);
          }
          running := running - {arc};
          phases := phases - {arc};
          return Done(true);
        case SetArcPhase(arc, phase) =>
          phases := phases[arc := phase];
        case MarkEntered(arc, lvl, entry) =>
          phases := phases[arc := Entered(lvl)];
          if chosen.None? {
            chosen := Some(entry);
          }
        case TryBeginCommit(_) =>
          var granted := !committing;
          if granted {
            committing := true;
          }
          return Granted(granted);
        case EndCommit(_) =>
          committing := false;
      }
    }
  }

  // ---------------------------------------------------------------- tasks and mailbox

  /** An arc task as far as the slot is concerned: `Replied` holds an answer not yet received,
      `Dead` was aborted. */
  datatype Task = Idle | Asking | Replied(granted: bool) | Holding | Dead

  /** `lostGrants` counts grants given to a task that was aborted before it could receive them. */
  datatype System = System(actor: ActorState, mailbox: seq<Command>, tasks: seq<Task>, lostGrants: nat)

  datatype Step =
    | Ask(i: nat)
    | Process
    | Receive(i: nat)
    | Release(i: nat)
    | Abort(i: nat)
    | Send(cmd: Command)

  predicate Enabled(s: System, step: Step) {
    match step
    case Ask(i) => i < |s.tasks| && s.tasks[i].Idle?
    case Process => s.mailbox != []
    case Receive(i) => i < |s.tasks| && s.tasks[i].Replied?
    case Release(i) => i < |s.tasks| && s.tasks[i].Holding?
    case Abort(i) => i < |s.tasks|
    case Send(cmd) => !cmd.TryBeginCommit? && !cmd.EndCommit?
  }

  /** Processing the head of the mailbox; a grant to an aborted task reaches nobody. */
  function ProcessHead(s: System): System
    requires s.mailbox != []
  {
    var (actor, reply) := HandleSpec(s.actor, s.mailbox[0]);
    var rest := s.(actor := actor, mailbox := s.mailbox[1..]);
    match reply
    case Granted(g) =>
      var i := s.mailbox[0].from;
      if i < |s.tasks| && s.tasks[i].Asking? then rest.(tasks := s.tasks[i := Replied(g)])
      else rest.(lostGrants := s.lostGrants + if g then 1 else 0)
    case _ => rest
  }

  function Next(s: System, step: Step): System
    requires Enabled(s, step)
  {
    match step
    case Ask(i) => s.(tasks := s.tasks[i := Asking], mailbox := s.mailbox + [TryBeginCommit(i)])
    case Process => ProcessHead(s)
    case Receive(i) => s.(tasks := s.tasks[i := if s.tasks[i].granted then Holding else Idle])
    case Release(i) => s.(tasks := s.tasks[i := Idle], mailbox := s.mailbox + [EndCommit(i)])
    case Abort(i) =>
      s.(tasks := s.tasks[i := Dead],
         mailbox := if s.tasks[i].Holding? then s.mailbox + [EndCommit(i)] else s.mailbox,
         lostGrants := s.lostGrants + if s.tasks[i] == Replied(true) then 1 else 0)
    case Send(cmd) => s.(mailbox := s.mailbox + [cmd])
  }

  function Initial(tasks: nat): System {
    System(ActorState(false, map[], None, {}), [], seq(tasks, i => Idle), 0)
  }

  // ---------------------------------------------------------------- accounting

  function Weight(t: Task): nat {
    if t.Holding? || t == Replied(true) then 1 else 0
  }

  function Grants(tasks: seq<Task>): nat {
    if tasks == [] then 0 else Grants(tasks[..|tasks| - 1]) + Weight(tasks[|tasks| - 1])
  }

  function Releases(mailbox: seq<Command>): nat {
    if mailbox == [] then 0
    else (if mailbox[0].EndCommit? then 1 else 0) + Releases(mailbox[1..])
  }

  lemma {:induction false} GrantsUpdate(tasks: seq<Task>, i: nat, t: Task)
    requires i < |tasks|
    ensures Grants(tasks[i := t]) == Grants(tasks) - Weight(tasks[i]) + Weight(t)
  {
    var n := |tasks| - 1;
    if i < n {
      GrantsUpdate(tasks[..n], i, t);
      assert tasks[i := t][..n] == tasks[..n][i := t];
    } else {
      assert tasks[i := t][..n] == tasks[..n];
    }
  }

  lemma {:induction false} GrantsAtLeast(tasks: seq<Task>, i: nat)
    requires i < |tasks|
    ensures Grants(tasks) >= Weight(tasks[i])
  {
    var n := |tasks| - 1;
    if i < n {
      GrantsAtLeast(tasks[..n], i);
    }
  }

  lemma {:induction false} GrantsAtLeastTwo(tasks: seq<Task>, i: nat, j: nat)
    requires i < j < |tasks|
    ensures Grants(tasks) >= Weight(tasks[i]) + Weight(tasks[j])
  {
    var n := |tasks| - 1;
    if j < n {
      GrantsAtLeastTwo(tasks[..n], i, j);
    } else {
      GrantsAtLeast(tasks[..n], i);
    }
  }

  lemma {:induction false} ReleasesAppend(mailbox: seq<Command>, cmd: Command)
    ensures Releases(mailbox + [cmd]) == Releases(mailbox) + (if cmd.EndCommit? then 1 else 0)
  {
    if mailbox != [] {
      ReleasesAppend(mailbox[1..], cmd);
      assert (mailbox + [cmd])[1..] == mailbox[1..] + [cmd];
    }
  }

  /** Holders, grants under way, releases queued and grants lost add up to the slot's flag. */
  predicate Balanced(s: System) {
    Grants(s.tasks) + Releases(s.mailbox) + s.lostGrants == if s.actor.committing then 1 else 0
  }

  /** A queued request belongs to a task still waiting for it (or aborted), is queued once, and
      comes after that arc's own earlier releases. */
  predicate Orderly(s: System) {
    && (forall k :: 0 <= k < |s.mailbox| && s.mailbox[k].TryBeginCommit? ==>
          var i := s.mailbox[k].from; i < |s.tasks| && (s.tasks[i].Asking? || s.tasks[i].Dead?))
    && (forall j, k :: 0 <= j < k < |s.mailbox| && s.mailbox[j].TryBeginCommit? ==>
          s.mailbox[k] != s.mailbox[j] && s.mailbox[k] != EndCommit(s.mailbox[j].from))
  }

  predicate Inv(s: System) {
    Balanced(s) && Orderly(s)
  }

  lemma ProcessKeepsBalance(s: System)
    requires Inv(s) && s.mailbox != []
    ensures Balanced(ProcessHead(s))
  {
    if s.mailbox[0].TryBeginCommit? && s.tasks[s.mailbox[0].from].Asking? {
      GrantsUpdate(s.tasks, s.mailbox[0].from, Replied(!s.actor.committing));
    }
  }

  lemma StepKeepsBalance(s: System, step: Step)
    requires Inv(s) && Enabled(s, step)
    ensures Balanced(Next(s, step))
  {
    match step
    case Ask(i) =>
      GrantsUpdate(s.tasks, i, Asking);
      ReleasesAppend(s.mailbox, TryBeginCommit(i));
    case Process => ProcessKeepsBalance(s);
    case Receive(i) => GrantsUpdate(s.tasks, i, if s.tasks[i].granted then Holding else Idle);
    case Release(i) =>
      GrantsUpdate(s.tasks, i, Idle);
      ReleasesAppend(s.mailbox, EndCommit(i));
    case Abort(i) =>
      GrantsUpdate(s.tasks, i, Dead);
      ReleasesAppend(s.mailbox, EndCommit(i));
    case Send(cmd) => ReleasesAppend(s.mailbox, cmd);
  }

  lemma ProcessKeepsOrder(s: System)
    requires Orderly(s) && s.mailbox != []
    ensures Orderly(ProcessHead(s))
  {
    var t := ProcessHead(s);
    assert t.mailbox == s.mailbox[1..];
    forall k | 0 <= k < |t.mailbox| && t.mailbox[k].TryBeginCommit?
      ensures var i := t.mailbox[k].from; i < |t.tasks| && (t.tasks[i].Asking? || t.tasks[i].Dead?)
    {
      assert t.mailbox[k] == s.mailbox[k + 1];
    }
    forall j, k | 0 <= j < k < |t.mailbox| && t.mailbox[j].TryBeginCommit?
      ensures t.mailbox[k] != t.mailbox[j] && t.mailbox[k] != EndCommit(t.mailbox[j].from)
    {
      assert t.mailbox[j] == s.mailbox[j + 1] && t.mailbox[k] == s.mailbox[k + 1];
    }
  }

  lemma StepKeepsInv(s: System, step: Step)
    requires Inv(s) && Enabled(s, step)
    ensures Inv(Next(s, step))
  {
    StepKeepsBalance(s, step);
    if step.Process? {
      ProcessKeepsOrder(s);
    }
  }

  // ---------------------------------------------------------------- runs

  predicate Takes(s: System, step: Step, t: System) {
    Enabled(s, step) && t == Next(s, step)
  }

  /** `t` is reached by the steps `steps` from `n` idle tasks and an empty mailbox. */
  ghost predicate Reached(n: nat, steps: seq<Step>, t: System) {
    if steps == [] then t == Initial(n)
    else
      var last := steps[|steps| - 1];
      exists s :: Reached(n, steps[..|steps| - 1], s) && Takes(s, last, t)
  }

  lemma {:induction false} NoGrants(tasks: seq<Task>)
    requires forall i :: 0 <= i < |tasks| ==> tasks[i] == Idle
    ensures Grants(tasks) == 0
  {
    if tasks != [] {
      NoGrants(tasks[..|tasks| - 1]);
    }
  }

  lemma {:induction false} RunKeepsInv(n: nat, steps: seq<Step>, t: System)
    requires Reached(n, steps, t)
    ensures Inv(t)
  {
    if steps == [] {
      NoGrants(t.tasks);
    } else {
      var s :| Reached(n, steps[..|steps| - 1], s) && Takes(s, steps[|steps| - 1], t);
      RunKeepsInv(n, steps[..|steps| - 1], s);
      StepKeepsInv(s, steps[|steps| - 1]);
    }
  }

  /** In every interleaving, aborts included, at most one arc is in its commit phase, and then the
      slot is marked taken. */
  lemma AtMostOneHolder(n: nat, steps: seq<Step>, t: System, i: nat, j: nat)
    requires Reached(n, steps, t)
    requires i < |t.tasks| && j < |t.tasks| && t.tasks[i].Holding? && t.tasks[j].Holding?
    ensures i == j && t.actor.committing
  {
    RunKeepsInv(n, steps, t);
    GrantsAtLeast(t.tasks, i);
    if i < j {
      GrantsAtLeastTwo(t.tasks, i, j);
    } else if j < i {
      GrantsAtLeastTwo(t.tasks, j, i);
    }
  }

  /** When a release is processed nobody else has the slot or a grant for it under way, so it is
      free afterwards. */
  lemma ReleaseFrees(n: nat, steps: seq<Step>, t: System)
    requires Reached(n, steps, t)
    requires t.mailbox != [] && t.mailbox[0].EndCommit?
    ensures Grants(t.tasks) == 0 && t.lostGrants == 0 && Releases(t.mailbox) == 1
    ensures !Next(t, Process).actor.committing && Releases(Next(t, Process).mailbox) == 0
  {
    RunKeepsInv(n, steps, t);
  }

  /** A request is refused only because of others: a holder, a grant or a release under way of a
      different task, or a lost grant; never because of the asker's own earlier release. */
  lemma RefusedBecauseOfOthers(n: nat, steps: seq<Step>, t: System)
    requires Reached(n, steps, t)
    requires t.mailbox != [] && t.mailbox[0].TryBeginCommit?
    ensures t.actor.committing <==> Grants(t.tasks) + Releases(t.mailbox[1..]) + t.lostGrants > 0
    ensures EndCommit(t.mailbox[0].from) !in t.mailbox
    ensures t.mailbox[0].from < |t.tasks| && Weight(t.tasks[t.mailbox[0].from]) == 0
  {
    RunKeepsInv(n, steps, t);
  }

  /** The step aborts no task that waits for its answer. */
  predicate Kind(s: System, step: Step) {
    step.Abort? && step.i < |s.tasks| ==> !s.tasks[step.i].Asking? && !s.tasks[step.i].Replied?
  }

  ghost predicate ReachedKindly(n: nat, steps: seq<Step>, t: System) {
    if steps == [] then t == Initial(n)
    else
      var last := steps[|steps| - 1];
      exists s :: ReachedKindly(n, steps[..|steps| - 1], s) && Takes(s, last, t) && Kind(s, last)
  }

  /** No grant is lost, and every queued request belongs to a task that waits for its answer. */
  predicate NoneLost(s: System) {
    && s.lostGrants == 0
    && forall k :: 0 <= k < |s.mailbox| && s.mailbox[k].TryBeginCommit? ==>
         s.mailbox[k].from < |s.tasks| && s.tasks[s.mailbox[k].from].Asking?
  }

  lemma KindStep(s: System, step: Step)
    requires Inv(s) && NoneLost(s) && Enabled(s, step) && Kind(s, step)
    ensures NoneLost(Next(s, step))
  {
    var t := Next(s, step);
    if step.Process? {
      forall k | 0 <= k < |t.mailbox| && t.mailbox[k].TryBeginCommit?
        ensures t.mailbox[k].from < |t.tasks| && t.tasks[t.mailbox[k].from].Asking?
      {
        assert t.mailbox[k] == s.mailbox[k + 1];
      }
    }
  }

  /** If no task is aborted while it waits for its grant, no grant is ever lost: in every interleaving
      holders, grants under way and queued releases add up to one while the slot is taken, and to
      zero while it is free. */
  lemma {:induction false} NothingLost(n: nat, steps: seq<Step>, t: System)
    requires ReachedKindly(n, steps, t)
    ensures Reached(n, steps, t) && NoneLost(t)
    ensures Grants(t.tasks) + Releases(t.mailbox) == if t.actor.committing then 1 else 0
  {
    if steps == [] {
      NoGrants(t.tasks);
    } else {
      var init := steps[..|steps| - 1];
      var last := steps[|steps| - 1];
      var s :| ReachedKindly(n, init, s) && Takes(s, last, t) && Kind(s, last);
      NothingLost(n, init, s);
      RunKeepsInv(n, init, s);
      KindStep(s, last);
      StepKeepsInv(s, last);
    }
  }

  /** `t` comes from `s` by the steps `steps`. */
  ghost predicate Continues(s: System, steps: seq<Step>, t: System) {
    if steps == [] then t == s
    else
      var last := steps[|steps| - 1];
      exists u :: Continues(s, steps[..|steps| - 1], u) && Takes(u, last, t)
  }

  lemma WedgedStep(s: System, step: Step)
    requires Inv(s) && Enabled(s, step) && s.lostGrants > 0
    ensures Inv(Next(s, step)) && Next(s, step).lostGrants > 0
  {
    StepKeepsInv(s, step);
  }

  /** A lost grant wedges the slot for good: after any further steps, whatever they are, it is still
      taken and nobody has it. In the source a waiting task is aborted only once the command loop has
      ended, so the actor never processes a command after such an abort. */
  lemma {:induction false} LostGrantWedges(n: nat, steps: seq<Step>, t: System, more: seq<Step>, u: System)
    requires Reached(n, steps, t) && t.lostGrants > 0 && Continues(t, more, u)
    ensures Inv(u) && u.lostGrants > 0 && u.actor.committing && Grants(u.tasks) == 0
    decreases |more|
  {
    if more == [] {
      RunKeepsInv(n, steps, t);
    } else {
      var last := more[|more| - 1];
      var s :| Continues(t, more[..|more| - 1], s) && Takes(s, last, u);
      LostGrantWedges(n, steps, t, more[..|more| - 1], s);
      WedgedStep(s, last);
    }
  }

  // ---------------------------------------------------------------- the commands of the actor alone

  function HandledAll(a: ActorState, cmds: seq<Command>): ActorState {
    if cmds == [] then a else HandleSpec(HandledAll(a, cmds[..|cmds| - 1]), cmds[|cmds| - 1]).0
  }

  /** The entry of the first arc that entered. */
  function FirstEntry(cmds: seq<Command>): Option<int> {
    if cmds == [] then None
    else
      var before := FirstEntry(cmds[..|cmds| - 1]);
      if before.None? && cmds[|cmds| - 1].MarkEntered? then Some(cmds[|cmds| - 1].entry) else before
  }

  /** The arcs added and not removed since. */
  function RunningArcs(cmds: seq<Command>): set<nat> {
    if cmds == [] then {}
    else
      var before := RunningArcs(cmds[..|cmds| - 1]);
      match cmds[|cmds| - 1]
      case AddArc(arc) => before + {arc}
      case RemoveArc(arc) => before - {arc}
      case _ => before
  }

  /** The phase an arc was last given since it was last added or removed. */
  function LastPhase(cmds: seq<Command>, arc: nat): Option<Phase> {
    if cmds == [] then None
    else
      var init := cmds[..|cmds| - 1];
      var before := LastPhase(init, arc);
      match cmds[|cmds| - 1]
      case AddArc(a) => if a == arc && arc !in RunningArcs(init) then Some(Discovering) else before
      case RemoveArc(a) => if a == arc then None else before
      case SetArcPhase(a, phase) => if a == arc then Some(phase) else before
      case MarkEntered(a, lvl, _) => if a == arc then Some(Entered(lvl)) else before
      case _ => before
  }

  /** Over every sequence of commands: the chosen address is the first one entered, the running arcs are those
      added and not removed, and each arc's phase is the last it was given. */
  lemma {:induction false} HandledHistory(cmds: seq<Command>, arc: nat)
    ensures
      var a := HandledAll(ActorState(false, map[], None, {}), cmds);
      && a.chosen == FirstEntry(cmds)
      && a.running == RunningArcs(cmds)
      && (if arc in a.phases then LastPhase(cmds, arc) == Some(a.phases[arc]) else LastPhase(cmds, arc).None?)
  {
    if cmds != [] {
      HandledHistory(cmds[..|cmds| - 1], arc);
    }
  }

  /** In the system of tasks and mailbox a chosen address is kept through every step. */
  lemma ChosenIsSticky(s: System, step: Step)
    requires Enabled(s, step) && s.actor.chosen.Some?
    ensures Next(s, step).actor.chosen == s.actor.chosen
  {
  }
}
