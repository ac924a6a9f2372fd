/**
  The server side of one search: `search_migration_path` (`crates/ntk-hooking/src/rpc.rs`), with the
  time budget that may drop it at any await.
 */
module SearchServer {
  import opened Prelude
  import opened Tuples
  import opened SearchStep
  import opened Search
  import opened Migration

  datatype ServerError = NotBootstrapped | LevelOutOfRange | NoMigrationPathFound | MigrationPathExecuteFailure

  /** Where the budget ran out, if it did. */
  datatype Cut = Uncut | InSearch | InExecution

  /** The release requests for the solutions of `sols`, in order. */
  function Releases(sols: seq<MigrationSolution>, levels: nat): (r: seq<TupleGNode>)
    requires forall i :: 0 <= i < |sols| ==> WellFormed(sols[i], levels)
    ensures |r| == |sols|
  {
    if sols == [] then []
    else
      var n := |sols| - 1;
      CleanupTargetExists(sols[n], levels);
      Releases(sols[..n], levels) + [CleanupTarget(sols[n], levels).value]
  }

  /** Every reservation the search recorded is either the one offered to the entrant or released, each
      exactly once. */
  ghost predicate Settled(
    r: Result<EntryData, ServerError>, solutions: seq<MigrationSolution>, released: seq<TupleGNode>, levels: nat)
    requires forall i :: 0 <= i < |solutions| ==> WellFormed(solutions[i], levels)
  {
    if r.Ok? then solutions != [] && released == Releases(solutions[..|solutions| - 1], levels)
    else released == Releases(solutions, levels)
  }

  /** The first answer yields a solution that is not accepted at once, and the budget ends before all its
      neighbours are explored. */
  predicate LeavesSearchEarly(view: View, router: Router, budget: nat, lvl: nat, epsilon: nat) {
    var root := RootStep(view, lvl + 1);
    var first := router.search(0, PathHopsOnto(root, []), view.Levels());
    && budget > 0 && first.Some?
    && Records(root, first.value, view.Levels(), view.Levels())
    && Expands(root, first.value, view.Levels(), EffectiveOk(view, lvl + 1, lvl + epsilon), view.Levels())
    && budget <= Explores(first.value.setAdjacent, first.value.minHostLvl, view.Levels())
  }

  lemma LeavesSolution(
    view: View, router: Router, budget: nat, lvl: nat, epsilon: nat, log: seq<Visit>, solutions: seq<MigrationSolution>,
    cut: bool, awaits: nat)
    requires LeavesSearchEarly(view, router, budget, lvl, epsilon) && log != [] && awaits <= budget
    requires Explained(
      view, router, EffectiveOk(view, lvl + 1, lvl + epsilon), RootStep(view, lvl + 1), log, solutions, cut, awaits)
    requires !cut ==>
      awaits >= AwaitsAfter(
        view, router, budget, EffectiveOk(view, lvl + 1, lvl + epsilon), Visit(0, RootStep(view, lvl + 1), view.Levels()))
    ensures cut && solutions != []
  {
    if solutions == [] {
      NothingRecorded(router, log, view.Levels(), 0);
    }
  }

  /** What a run of the search records, releases and sends, and how many awaits its search took. */
  datatype Outcome = Outcome(
    r: Result<EntryData, ServerError>, solutions: seq<MigrationSolution>, released: seq<TupleGNode>,
    migs: seq<MigData>, sent: seq<RequestPacket>, searched: nat, cut: Cut)

  /** What holds of every outcome. All recorded reservations are offered or released exactly when the
      budget lasts, or nothing was recorded when it ended: a search cut short releases nothing, an
      execution cut short keeps the chosen reservation. */
  ghost predicate Conducted(o: Outcome, view: View, ok: nat, budget: nat, ids: nat -> int, ack: nat -> bool) {
    && SolutionList(o.solutions, view, ok)
    && (Settled(o.r, o.solutions, o.released, view.Levels()) <==>
          o.cut.Uncut? || (o.cut.InSearch? && o.solutions == []))
    && o.searched <= budget
    && (o.cut.InSearch? ==> CutInSearch(o, budget))
    && (o.cut.InExecution? ==> CutInExecution(o, view.Levels()))
    && (o.sent != [] ==> o.solutions != [] && Executes(o, view.Levels(), budget, ids, ack))
    && (o.r.Ok? ==> o.cut.Uncut? && Offers(o, view))
  }

  predicate CutInSearch(o: Outcome, budget: nat) {
    o.r == Err(MigrationPathExecuteFailure) && o.searched == budget && o.released == [] && o.sent == []
  }

  predicate CutInExecution(o: Outcome, levels: nat)
    requires forall i :: 0 <= i < |o.solutions| ==> WellFormed(o.solutions[i], levels)
  {
    && o.r == Err(MigrationPathExecuteFailure) && o.solutions != [] && o.sent != []
    && o.released == Releases(o.solutions[..|o.solutions| - 1], levels)
  }

  /** `search_migration_path`, dropped at the await after the first `budget` ones if there is one. The
      solution chosen has the lowest host level of all, and the address offered is a place of the
      server's own g-node: the one reserved, or the one the first hop leaves once the whole plan was
      acknowledged. */
  method SearchMigrationPath(
    view: View, router: Router, budget: nat, bootstrapped: bool, lvl: nat, epsilon: nat, ids: nat -> int, ack: nat -> bool)
    returns (o: Outcome)
    ensures Conducted(o, view, EffectiveOk(view, lvl + 1, lvl + epsilon), budget, ids, ack)
    ensures !bootstrapped ==> o.r == Err(NotBootstrapped)
    ensures bootstrapped && lvl >= view.Levels() ==> o.r == Err(LevelOutOfRange)
    ensures o.r.Err? && o.r.error != MigrationPathExecuteFailure ==> o.solutions == [] && o.released == []
    ensures forall i :: 0 <= i < |o.solutions| - 1 ==>
      o.solutions[|o.solutions| - 1].finalHostLvl < o.solutions[i].finalHostLvl
    ensures bootstrapped && lvl < view.Levels() && LeavesSearchEarly(view, router, budget, lvl, epsilon) ==>
      o.cut.InSearch? && o.solutions != []
  {
    if !bootstrapped {
      return Outcome(Err(NotBootstrapped), [], [], [], [], 0, Uncut);
    }
    if lvl >= view.Levels() {
      return Outcome(Err(LevelOutOfRange), [], [], [], [], 0, Uncut);
    }
    o := BoundedSearch(view, router, budget, lvl, epsilon, ids, ack);
  }

  /** The search and the execution under the budget. */
  method BoundedSearch(
    view: View, router: Router, budget: nat, lvl: nat, epsilon: nat, ids: nat -> int, ack: nat -> bool)
    returns (o: Outcome)
    ensures Conducted(o, view, EffectiveOk(view, lvl + 1, lvl + epsilon), budget, ids, ack)
    ensures o.r.Err? && o.r.error != MigrationPathExecuteFailure ==> o.solutions == [] && o.released == []
    ensures LeavesSearchEarly(view, router, budget, lvl, epsilon) ==> o.cut.InSearch? && o.solutions != []
  {
    var solutions, dropped, awaits, log := FindShortestMig(view, router, budget, lvl + 1, lvl + epsilon);
    if LeavesSearchEarly(view, router, budget, lvl, epsilon) {
      LeavesSolution(view, router, budget, lvl, epsilon, log, solutions, dropped, awaits);
    }
    if dropped {
      return Outcome(Err(MigrationPathExecuteFailure), solutions, [], [], [], awaits, InSearch);
    }
    if solutions == [] {
      return Outcome(Err(NoMigrationPathFound), solutions, [], [], [], awaits, Uncut);
    }
    var released := ReleaseRejected(solutions, view.Levels());
    o := Commit(view, solutions, released, awaits, budget, ids, ack, EffectiveOk(view, lvl + 1, lvl + epsilon));
  }

  /** The packets sent are those of the chosen solution's plan, in order, within what the search left of
      the budget. */
  predicate Executes(o: Outcome, levels: nat, budget: nat, ids: nat -> int, ack: nat -> bool)
    requires o.solutions != [] && o.searched <= budget
  {
    var best := o.solutions[|o.solutions| - 1];
    && IsMigList(o.migs, best, levels, ids) && HasFinal(o.migs)
    && SentInOrder(
         o.migs, ack, budget - o.searched,
         if o.cut.InExecution? then Dropped else if o.r.Ok? then Completed else Failed, o.sent)
  }

  /** The entry offered. */
  ghost predicate Offers(o: Outcome, view: View)
    requires o.r.Ok?
  {
    && o.solutions != []
    && var best := o.solutions[|o.solutions| - 1];
       && WellFormed(best, view.Levels())
       && o.r.value.networkId == view.networkId
       && InOwnGnode(o.r.value, best, view)
       && (Distance(best.leaf) == 0 ==> o.sent == [])
       && (Distance(best.leaf) > 0 ==>
             o.r.value == WalkedEntry(best, view.networkId) && |o.sent| == 2 * Distance(best.leaf))
  }

  /** The reservations of all solutions but the last are released. */
  method ReleaseRejected(solutions: seq<MigrationSolution>, levels: nat) returns (released: seq<TupleGNode>)
    requires solutions != [] && forall i :: 0 <= i < |solutions| ==> WellFormed(solutions[i], levels)
    ensures released == Releases(solutions[..|solutions| - 1], levels)
  {
    released := [];
    for i := 0 to |solutions| - 1
      invariant released == Releases(solutions[..i], levels)
    {
      var target := CleanupTarget(solutions[i], levels);
      assert solutions[..i + 1][..i] == solutions[..i];
      CleanupTargetExists(solutions[i], levels);
      if target.Some? {
        released := released + [target.value];
      }
    }
  }

  lemma ReleaseAll(solutions: seq<MigrationSolution>, levels: nat)
    requires solutions != [] && forall i :: 0 <= i < |solutions| ==> WellFormed(solutions[i], levels)
    ensures
      var n := |solutions| - 1;
      var target := CleanupTarget(solutions[n], levels);
      target.Some? && Releases(solutions, levels) == Releases(solutions[..n], levels) + [target.value]
  {
    CleanupTargetExists(solutions[|solutions| - 1], levels);
  }

  /** A finished search with solutions, all but the last released. */
  ghost predicate Ready(
    view: View, solutions: seq<MigrationSolution>, rejected: seq<TupleGNode>, searched: nat, budget: nat, ok: nat)
  {
    && solutions != [] && searched <= budget && SolutionList(solutions, view, ok)
    && rejected == Releases(solutions[..|solutions| - 1], view.Levels())
  }

  /** The chosen solution: executed if somebody has to move, then offered. */
  method Commit(
    view: View, solutions: seq<MigrationSolution>, rejected: seq<TupleGNode>, searched: nat, budget: nat, ids: nat -> int,
    ack: nat -> bool, ghost ok: nat)
    returns (o: Outcome)
    requires Ready(view, solutions, rejected, searched, budget, ok)
    ensures Conducted(o, view, ok, budget, ids, ack) && !o.cut.InSearch?
    ensures o.r.Err? ==> o.r == Err(MigrationPathExecuteFailure)
  {
    var distance := ComputeDistance(solutions[|solutions| - 1].leaf);
    if distance > 0 {
      o := CommitByMigration(view, solutions, rejected, searched, budget, ids, ack, ok);
    } else {
      var entry := ResolveEntryData(solutions[|solutions| - 1], view);
      o := Outcome(Ok(entry), solutions, rejected, [], [], searched, Uncut);
      OfferIsConducted(o, view, ok, budget, ids, ack);
    }
  }

  method CommitByMigration(
    view: View, solutions: seq<MigrationSolution>, rejected: seq<TupleGNode>, searched: nat, budget: nat, ids: nat -> int,
    ack: nat -> bool, ghost ok: nat)
    returns (o: Outcome)
    requires Ready(view, solutions, rejected, searched, budget, ok)
    requires Distance(solutions[|solutions| - 1].leaf) > 0
    ensures Conducted(o, view, ok, budget, ids, ack) && !o.cut.InSearch?
    ensures o.r.Err? ==> o.r == Err(MigrationPathExecuteFailure)
  {
    var sol := solutions[|solutions| - 1];
    var executed, sent, migs := ExecuteShortestMig(sol, view.Levels(), ids, ack, budget - searched);
    if executed.Completed? {
      o := OfferWalked(view, solutions, rejected, migs, sent, searched);
      assert Executes(o, view.Levels(), budget, ids, ack);
      OfferIsConducted(o, view, ok, budget, ids, ack);
    } else {
      o := Unoffered(view, solutions, rejected, migs, sent, searched, executed);
      assert Executes(o, view.Levels(), budget, ids, ack);
      FailureIsConducted(o, view, ok, budget, ids, ack);
    }
  }

  /** The offer after a completed execution. */
  method OfferWalked(
    view: View, solutions: seq<MigrationSolution>, rejected: seq<TupleGNode>, migs: seq<MigData>, sent: seq<RequestPacket>,
    searched: nat)
    returns (o: Outcome)
    requires solutions != []
    requires
      var sol := solutions[|solutions| - 1];
      && WellFormed(sol, view.Levels()) && StartsAt(sol.leaf, OwnTuple(0, view))
      && Distance(sol.leaf) > 0 && |sent| == 2 * Distance(sol.leaf)
    ensures o.r.Ok? && o == Outcome(o.r, solutions, rejected, migs, sent, searched, Uncut) && Offers(o, view)
  {
    var entry := ResolveEntryData(solutions[|solutions| - 1], view);
    return Outcome(Ok(entry), solutions, rejected, migs, sent, searched, Uncut);
  }

  lemma OfferIsConducted(o: Outcome, view: View, ok: nat, budget: nat, ids: nat -> int, ack: nat -> bool)
    requires Ready(view, o.solutions, o.released, o.searched, budget, ok) && o.r.Ok? && o.cut.Uncut?
    requires Offers(o, view) && (o.sent != [] ==> Executes(o, view.Levels(), budget, ids, ack))
    ensures Conducted(o, view, ok, budget, ids, ack)
  {}

  lemma FailureIsConducted(o: Outcome, view: View, ok: nat, budget: nat, ids: nat -> int, ack: nat -> bool)
    requires o.solutions != [] && o.searched <= budget && SolutionList(o.solutions, view, ok)
    requires o.r == Err(MigrationPathExecuteFailure) && !o.cut.InSearch? && o.sent != []
    requires Settled(o.r, o.solutions, o.released, view.Levels()) <==> o.cut.Uncut?
    requires o.cut.InExecution? ==> o.released == Releases(o.solutions[..|o.solutions| - 1], view.Levels())
    requires Executes(o, view.Levels(), budget, ids, ack)
    ensures Conducted(o, view, ok, budget, ids, ack)
  {}

  /** An execution that failed releases the chosen reservation as well; one that is dropped does not. */
  method Unoffered(
    view: View, solutions: seq<MigrationSolution>, rejected: seq<TupleGNode>, migs: seq<MigData>, sent: seq<RequestPacket>,
    searched: nat, executed: Executed)
    returns (o: Outcome)
    requires solutions != [] && !executed.Completed?
    requires forall i :: 0 <= i < |solutions| ==> WellFormed(solutions[i], view.Levels())
    requires rejected == Releases(solutions[..|solutions| - 1], view.Levels())
    ensures o == Outcome(
      Err(MigrationPathExecuteFailure), solutions, o.released, migs, sent, searched,
      if executed.Dropped? then InExecution else Uncut)
    ensures o.released == if executed.Dropped? then rejected else Releases(solutions, view.Levels())
    ensures Settled(o.r, solutions, o.released, view.Levels()) <==> o.cut.Uncut?
  {
    var released := rejected;
    ReleaseAll(solutions, view.Levels());
    if executed.Failed? {
      var target := CleanupTarget(solutions[|solutions| - 1], view.Levels());
      if target.Some? {
        released := released + [target.value];
      }
    }
    return Outcome(
      Err(MigrationPathExecuteFailure), solutions, released, migs, sent, searched,
      if executed.Dropped? then InExecution else Uncut);
  }

  function SampleView(): View {
    ViewData([2, 2, 2], [0, 0, 0], [0, 0, 0], 7, 0)
  }

  /** A slot one level too high, and a neighbour to explore. */
  function SampleStep(): SearchStepResult {
    SearchStepResult(1, 2, Some(1), Some(1), [Adjacent(TupleGNode([1], [0]), 0)], Some(2), Some(1))
  }

  function SampleRouter(): Router {
    Router((k, hops, max) => Some(SampleStep()), (k, hops, max) => None)
  }

  lemma SampleLeavesEarly()
    ensures LeavesSearchEarly(SampleView(), SampleRouter(), 1, 0, 0)
  {
    var root := RootStep(SampleView(), 1);
    assert root.visiting.pos == [0, 0] && root.visiting.eldership == [0, 0];
    var adjacent := SampleStep().setAdjacent;
    assert Explores(adjacent[..0], 1, 3) == 0;
    assert Explores(adjacent, 1, 3) == 1;
  }

  /** A budget that leaves a reservation behind: it ends while a neighbour is explored. */
  method LeakedReservation() returns (o: Outcome)
    ensures o.r == Err(MigrationPathExecuteFailure) && o.solutions != [] && o.released == []
  {
    SampleLeavesEarly();
    o := SearchMigrationPath(SampleView(), SampleRouter(), 1, true, 0, 0, k => k, k => true);
  }
}
