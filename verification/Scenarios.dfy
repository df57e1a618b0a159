/** Authored scenarios beside mined tasks: the last selection wins. */
module Scenarios {
  import opened Wrappers
  import opened BuildReview

  function IsMined(): Task -> bool { (task: Task) => task.Mined? }

  function MinedTasks(tasks: seq<Task>): (r: seq<Task>)
    ensures forall k :: 0 <= k < |r| ==> r[k].Mined?
  {
    var r := Filter(IsMined(), tasks);
    assert forall k :: 0 <= k < |r| ==> r[k] in r;
    r
  }

  function TotalWeight(tasks: seq<Task>): real {
    if tasks == [] then 0.0 else tasks[0].weight + TotalWeight(tasks[1..])
  }

  function Mean(tasks: seq<Task>): real
    requires tasks != []
  {
    TotalWeight(tasks) / |tasks| as real
  }

  function AuthoredTasks(scenarios: seq<Scenario>, weight: real): (r: seq<Task>)
    ensures |r| == |scenarios| && forall k :: 0 <= k < |r| ==> r[k] == Authored(scenarios[k], weight)
  {
    seq(|scenarios|, k requires 0 <= k < |scenarios| => Authored(scenarios[k], weight))
  }

  datatype TaskId = MinedId(id: nat) | AuthoredId(scenario: Scenario)

  function TaskIdOf(task: Task): TaskId { if task.Mined? then MinedId(task.id) else AuthoredId(task.scenario) }

  ghost predicate DistinctTasks(tasks: seq<Task>) {
    forall i, j :: 0 <= i < j < |tasks| ==> TaskIdOf(tasks[i]) != TaskIdOf(tasks[j])
  }

  predicate UniqueScenarioIds(scenarios: seq<Scenario>) {
    forall i, j :: 0 <= i < j < |scenarios| ==> scenarios[i].scenarioId != scenarios[j].scenarioId
  }

  /** The task set a selection derives from the selected one, which keeps its provenance, coverage and lineage. */
  function Derive(base: TaskSet, scenarios: seq<Scenario>): Option<TaskSet> {
    var mined := MinedTasks(base.tasks);
    if mined == [] || base.coverage.None? then None
    else Some(base.(tasks := mined + AuthoredTasks(scenarios, Mean(mined))))
  }

  lemma {:induction false} NoneMined(scenarios: seq<Scenario>, weight: real)
    ensures MinedTasks(AuthoredTasks(scenarios, weight)) == []
  {
    if scenarios != [] {
      var authored := AuthoredTasks(scenarios, weight);
      assert authored[1..] == AuthoredTasks(scenarios[1..], weight);
      NoneMined(scenarios[1..], weight);
    }
  }

  lemma MinedOfDerived(base: TaskSet, scenarios: seq<Scenario>)
    requires Derive(base, scenarios).Some?
    ensures MinedTasks(Derive(base, scenarios).value.tasks) == MinedTasks(base.tasks)
  {
    var mined := MinedTasks(base.tasks);
    var authored := AuthoredTasks(scenarios, Mean(mined));
    FilterConcat(IsMined(), mined, authored);
    FilterAll(IsMined(), mined);
    NoneMined(scenarios, Mean(mined));
  }

  /** Selecting B after A derives exactly what selecting B alone does. */
  lemma LastWriteWins(base: TaskSet, a: seq<Scenario>, b: seq<Scenario>)
    requires Derive(base, a).Some?
    ensures Derive(Derive(base, a).value, b) == Derive(base, b)
    ensures Derive(base, b).Some?
  {
    MinedOfDerived(base, a);
  }

  /** Selecting nothing gives back a mined task set, whatever was selected before. */
  lemma EmptySelectionRestores(base: TaskSet, a: seq<Scenario>)
    requires Derive(base, a).Some? && forall k :: 0 <= k < |base.tasks| ==> base.tasks[k].Mined?
    ensures Derive(base, []) == Some(base)
    ensures Derive(Derive(base, a).value, []) == Some(base)
  {
    FilterAll(IsMined(), base.tasks);
    LastWriteWins(base, a, []);
    assert base.tasks + AuthoredTasks([], Mean(base.tasks)) == base.tasks;
  }

  /** Unique scenario IDs beside distinct mined tasks give distinct task IDs. */
  lemma TaskIdsAreDistinct(base: TaskSet, scenarios: seq<Scenario>)
    requires Derive(base, scenarios).Some? && DistinctTasks(base.tasks) && UniqueScenarioIds(scenarios)
    ensures DistinctTasks(Derive(base, scenarios).value.tasks)
  {
    FilterKeepsDistinct(IsMined(), base.tasks);
  }

  lemma {:induction false} FilterKeepsDistinct(keep: Task -> bool, tasks: seq<Task>)
    requires DistinctTasks(tasks)
    ensures DistinctTasks(Filter(keep, tasks))
  {
    if tasks != [] {
      var rest := tasks[1..];
      assert forall i, j :: 0 <= i < j < |rest| ==> TaskIdOf(rest[i]) != TaskIdOf(rest[j]) by {
        assert forall i :: 0 <= i < |rest| ==> rest[i] == tasks[i + 1];
      }
      FilterKeepsDistinct(keep, rest);
      var kept := Filter(keep, rest);
      forall i | 0 <= i < |kept| ensures TaskIdOf(kept[i]) != TaskIdOf(tasks[0]) {
        assert kept[i] in kept;
        var k :| 0 <= k < |rest| && rest[k] == kept[i];
        assert TaskIdOf(tasks[0]) != TaskIdOf(tasks[k + 1]);
      }
    }
  }

  lemma {:induction false} TotalOfConcat(a: seq<Task>, b: seq<Task>)
    ensures TotalWeight(a + b) == TotalWeight(a) + TotalWeight(b)
  {
    if a == [] {
      assert a + b == b;
    } else {
      assert (a + b)[1..] == a[1..] + b;
      TotalOfConcat(a[1..], b);
    }
  }

  lemma {:induction false} TotalOfAuthored(scenarios: seq<Scenario>, weight: real)
    ensures TotalWeight(AuthoredTasks(scenarios, weight)) == |scenarios| as real * weight
  {
    if scenarios != [] {
      assert AuthoredTasks(scenarios, weight)[1..] == AuthoredTasks(scenarios[1..], weight);
      TotalOfAuthored(scenarios[1..], weight);
    }
  }

  /** The mean workload weight of the derived set is the mined mean. */
  lemma MeanIsPreserved(base: TaskSet, scenarios: seq<Scenario>)
    requires Derive(base, scenarios).Some?
    ensures Derive(base, scenarios).value.tasks != []
    ensures Mean(Derive(base, scenarios).value.tasks) == Mean(MinedTasks(base.tasks))
  {
    hide Mean, TotalWeight, MinedTasks;
    var mined := MinedTasks(base.tasks);
    var mean := Mean(mined);
    TotalOfConcat(mined, AuthoredTasks(scenarios, mean));
    TotalOfAuthored(scenarios, mean);
    hide AuthoredTasks;
    var tasks := Derive(base, scenarios).value.tasks;
    SameMean(tasks, mined, |scenarios|);
  }

  lemma SameMean(tasks: seq<Task>, mined: seq<Task>, more: nat)
    requires mined != [] && |tasks| == |mined| + more && TotalWeight(tasks) == TotalWeight(mined) + more as real * Mean(mined)
    ensures Mean(tasks) == Mean(mined)
  {
    hide TotalWeight;
    MeanOfMore(TotalWeight(mined), |mined|, more);
  }

  lemma MeanOfMore(total: real, n: nat, more: nat)
    requires n > 0
    ensures (total + more as real * (total / n as real)) / (n + more) as real == total / n as real
  {
    var mean := total / n as real;
    assert total == n as real * mean;
    assert total + more as real * mean == (n + more) as real * mean;
    assert (n + more) as real * mean / (n + more) as real == mean;
  }

  /** The identity of a derived task set tells its scenarios apart, field by field and in order. */
  lemma IdentityBindsScenarios(base: TaskSet, a: seq<Scenario>, b: seq<Scenario>)
    requires Derive(base, a).Some? && Derive(base, b).Some?
    ensures IdOf(Derive(base, a).value) == IdOf(Derive(base, b).value) <==> a == b
  {
    var mined := MinedTasks(base.tasks);
    var x, y := AuthoredTasks(a, Mean(mined)), AuthoredTasks(b, Mean(mined));
    if mined + x == mined + y {
      assert x == (mined + x)[|mined|..] && y == (mined + y)[|mined|..];
      assert forall k :: 0 <= k < |a| ==> a[k] == x[k].scenario && b[k] == y[k].scenario;
    }
  }

  // ----- Selection in a project -----

  datatype Error = DuplicateScenario | NoBuild | NoMinedTasks | NoCoverage | IdentityConflict | SelectionRefused

  datatype Selected = Selected(pointer: Pointer) | Refused(error: Error)

  /** The task set a project's build names, when it is stored. */
  function CurrentTaskSet(p: Project): Option<TaskSet> {
    if p.build.Some? && p.build.value.tasks.id in p.store && p.store[p.build.value.tasks.id].Tasks?
    then Some(p.store[p.build.value.tasks.id].taskSet) else None
  }

  /** Writes the derived set once, then switches to it. */
  function Select(p: Project, scenarios: seq<Scenario>): (Project, Selected) {
    if !UniqueScenarioIds(scenarios) then (p, Refused(DuplicateScenario)) else
    var current := CurrentTaskSet(p);
    if current.None? then (p, Refused(NoBuild))
    else if MinedTasks(current.value.tasks) == [] then (p, Refused(NoMinedTasks))
    else if current.value.coverage.None? then (p, Refused(NoCoverage))
    else
      var derived := Derive(current.value, scenarios).value;
      var id := IdOf(derived);
      if id in p.store && p.store[id] != Tasks(derived) then (p, Refused(IdentityConflict)) else
      var stored := p.(store := p.store[id := Tasks(derived)]);
      var (t, ok) := SelectTaskSet(stored, PointerTo(derived));
      (t, if ok then Selected(PointerTo(derived)) else Refused(SelectionRefused))
  }

  method SelectAuthoredScenarios(project: ProjectStore, scenarios: seq<Scenario>) returns (r: Selected)
    modifies project
    ensures (project.State(), r) == Select(old(project.State()), scenarios)
  {
    hide SelectTaskSet, MinedTasks, Mean;
    if !UniqueScenarioIds(scenarios) { return Refused(DuplicateScenario); }
    if project.build.None? { return Refused(NoBuild); }
    var selected := project.build.value.tasks.id;
    if selected !in project.store || !project.store[selected].Tasks? { return Refused(NoBuild); }
    var current := project.store[selected].taskSet;
    var mined := MinedTasks(current.tasks);
    if mined == [] { return Refused(NoMinedTasks); }
    if current.coverage.None? { return Refused(NoCoverage); }
    var derived := current.(tasks := mined + AuthoredTasks(scenarios, Mean(mined)));
    var id := IdOf(derived);
    if id in project.store && project.store[id] != Tasks(derived) { return Refused(IdentityConflict); }
    project.store := project.store[id := Tasks(derived)];
    var ok := project.SwitchTaskSet(PointerTo(derived));
    r := if ok then Selected(PointerTo(derived)) else Refused(SelectionRefused);
  }

  /** An accepted selection points build and review at the derived set, and leaves every other pointer. */
  lemma SelectionPointsAtDerived(p: Project, scenarios: seq<Scenario>)
    requires Select(p, scenarios).1.Selected?
    ensures CurrentTaskSet(p).Some? && Derive(CurrentTaskSet(p).value, scenarios).Some?
    ensures var derived := Derive(CurrentTaskSet(p).value, scenarios).value;
            var t := Select(p, scenarios).0;
            && Select(p, scenarios).1.pointer == PointerTo(derived)
            && p.build.Some? && t.build == Some(p.build.value.(tasks := PointerTo(derived)))
            && CurrentReadiness(p).Some?
            && CurrentReadiness(t) == Some(ReadyFor(CurrentReadiness(p).value.binding.(tasks := PointerTo(derived))))
            && IdOf(derived) in t.store && t.store[IdOf(derived)] == Tasks(derived) && CurrentTaskSet(t) == Some(derived)
  {
    hide SelectTaskSet, MinedTasks, Mean, AuthoredTasks;
    var derived := Derive(CurrentTaskSet(p).value, scenarios).value;
    SwitchKeepsPointers(p.(store := p.store[IdOf(derived) := Tasks(derived)]), PointerTo(derived));
    assert PointerTo(derived).id == IdOf(derived);
  }

  lemma VerifiedInMore(small: Store, large: Store, build: Build)
    requires Verified(small, build) && forall id :: id in small ==> id in large && large[id] == small[id]
    ensures Verified(large, build)
  {
  }

  /** Whether a selection is accepted, in terms of the project alone. */
  lemma SelectAccepts(p: Project, scenarios: seq<Scenario>)
    requires CurrentTaskSet(p).Some? && Derive(CurrentTaskSet(p).value, scenarios).Some? && CurrentReadiness(p).Some?
    requires CurrentReadiness(p).value.binding.trace == p.build.value.trace && CurrentReadiness(p).value.binding.tasks == p.build.value.tasks
    ensures var derived := Derive(CurrentTaskSet(p).value, scenarios).value;
            Select(p, scenarios).1.Selected?
            <==> && UniqueScenarioIds(scenarios) && (IdOf(derived) in p.store ==> p.store[IdOf(derived)] == Tasks(derived))
                 && (PointerTo(derived) == p.build.value.tasks
                     || (!p.hosted && !p.frozen
                         && Verified(p.store[IdOf(derived) := Tasks(derived)], p.build.value.(tasks := PointerTo(derived)))))
  {
    hide SelectTaskSet, MinedTasks, Mean, AuthoredTasks, Verified;
    var derived := Derive(CurrentTaskSet(p).value, scenarios).value;
    SwitchKeepsPointers(p.(store := p.store[IdOf(derived) := Tasks(derived)]), PointerTo(derived));
  }

  /** The graph B needs is verified in the store that A's selection leaves. */
  lemma VerifiedAfter(p: Project, x: TaskSet, y: TaskSet)
    requires p.build.Some?
    requires IdOf(x) in p.store ==> p.store[IdOf(x)] == Tasks(x)
    requires IdOf(y) in p.store ==> p.store[IdOf(y)] == Tasks(y)
    requires IdOf(x) == IdOf(y) ==> x == y
    requires var build := p.build.value.(tasks := PointerTo(y));
             Verified(p.store, build) || Verified(p.store[IdOf(y) := Tasks(y)], build)
    ensures Verified(p.store[IdOf(x) := Tasks(x)][IdOf(y) := Tasks(y)], p.build.value.(tasks := PointerTo(y)))
  {
    hide Verified;
    var build := p.build.value.(tasks := PointerTo(y));
    var large := p.store[IdOf(x) := Tasks(x)][IdOf(y) := Tasks(y)];
    if Verified(p.store, build) {
      VerifiedInMore(p.store, large, build);
    } else {
      VerifiedInMore(p.store[IdOf(y) := Tasks(y)], large, build);
    }
  }

  /** In a project with a verified build, if A and B can each be selected, then B can be selected after A, and leaves the same
      build and the same review binding as selecting B alone. */
  lemma LastSelectionWins(p: Project, a: seq<Scenario>, b: seq<Scenario>)
    requires InStep(p) && p.build.Some? && Verified(p.store, p.build.value)
    requires Select(p, a).1.Selected? && Select(p, b).1.Selected?
    ensures var (after, alone) := (Select(Select(p, a).0, b), Select(p, b));
            && after.1 == alone.1 && after.0.build == alone.0.build && CurrentReadiness(after.0) == CurrentReadiness(alone.0)
  {
    hide Verified;
    SelectionPointsAtDerived(p, a);
    SelectionPointsAtDerived(p, b);
    var base, q := CurrentTaskSet(p).value, Select(p, a).0;
    var x, y := Derive(base, a).value, Derive(base, b).value;
    LastWriteWins(base, a, b);
    SelectAccepts(p, a);
    SelectAccepts(p, b);
    SelectLeaves(p, a);
    hide Select, Derive;
    assert p.build.value.(tasks := p.build.value.tasks) == p.build.value;
    SameIdentity(base, a, b);
    VerifiedAfter(p, x, y);
    assert q.build.value.(tasks := PointerTo(y)) == p.build.value.(tasks := PointerTo(y));
    SelectAccepts(q, b);
    SelectionPointsAtDerived(q, b);
  }

  lemma SameIdentity(base: TaskSet, a: seq<Scenario>, b: seq<Scenario>)
    requires Derive(base, a).Some? && Derive(base, b).Some?
    ensures IdOf(Derive(base, a).value) == IdOf(Derive(base, b).value) ==> Derive(base, a) == Derive(base, b)
  {
    hide MinedTasks, Mean, AuthoredTasks;
  }

  lemma SelectLeaves(p: Project, scenarios: seq<Scenario>)
    requires Select(p, scenarios).1.Selected?
    ensures CurrentTaskSet(p).Some? && Derive(CurrentTaskSet(p).value, scenarios).Some?
    ensures var derived := Derive(CurrentTaskSet(p).value, scenarios).value;
            var t := Select(p, scenarios).0;
            t.store == p.store[IdOf(derived) := Tasks(derived)] && t.hosted == p.hosted && t.frozen == p.frozen
  {
    hide SelectTaskSet, MinedTasks, Mean, AuthoredTasks;
    var derived := Derive(CurrentTaskSet(p).value, scenarios).value;
    SwitchKeepsPointers(p.(store := p.store[IdOf(derived) := Tasks(derived)]), PointerTo(derived));
  }

  ghost predicate Repeated(scenarios: seq<Scenario>) {
    exists i, j :: 0 <= i < j < |scenarios| && scenarios[i].scenarioId == scenarios[j].scenarioId
  }

  ghost predicate NoneMinedIn(tasks: seq<Task>) { forall k :: 0 <= k < |tasks| ==> tasks[k].Authored? }

  /** Why a selection is refused: the first of these that holds. */
  ghost predicate RefusedFor(p: Project, scenarios: seq<Scenario>, error: Error) {
    var current, repeated := CurrentTaskSet(p), Repeated(scenarios);
    match error
    case DuplicateScenario => repeated
    case NoBuild => !repeated && current.None?
    case NoMinedTasks => !repeated && current.Some? && NoneMinedIn(current.value.tasks)
    case NoCoverage => !repeated && current.Some? && !NoneMinedIn(current.value.tasks) && current.value.coverage.None?
    case IdentityConflict =>
      && !repeated && current.Some? && Derive(current.value, scenarios).Some?
      && var derived := Derive(current.value, scenarios).value; IdOf(derived) in p.store && p.store[IdOf(derived)] != Tasks(derived)
    case SelectionRefused =>
      && !repeated && current.Some? && Derive(current.value, scenarios).Some? && !Select(p, scenarios).1.Selected?
      && var derived := Derive(current.value, scenarios).value; IdOf(derived) in p.store ==> p.store[IdOf(derived)] == Tasks(derived)
  }

  /** A refusal names its cause, and changes nothing except that a refused switch leaves the derived set stored. */
  lemma SelectRefusals(p: Project, scenarios: seq<Scenario>, error: Error)
    ensures Select(p, scenarios).1 == Refused(error) <==> RefusedFor(p, scenarios, error)
    ensures Select(p, scenarios).1 == Refused(error) ==>
              var t := Select(p, scenarios).0;
              if error != SelectionRefused then t == p
              else var derived := Derive(CurrentTaskSet(p).value, scenarios).value; t == p.(store := p.store[IdOf(derived) := Tasks(derived)])
  {
    hide SelectTaskSet, Mean, AuthoredTasks, MinedTasks;
    var current := CurrentTaskSet(p);
    assert UniqueScenarioIds(scenarios) <==> !Repeated(scenarios);
    if current.Some? {
      MinedMeans(current.value.tasks);
      assert Derive(current.value, scenarios).Some? <==> MinedTasks(current.value.tasks) != [] && current.value.coverage.Some?;
      if Derive(current.value, scenarios).Some? {
        var derived := Derive(current.value, scenarios).value;
        SwitchKeepsPointers(p.(store := p.store[IdOf(derived) := Tasks(derived)]), PointerTo(derived));
      }
    }
    if error == SelectionRefused && RefusedFor(p, scenarios, error) { SwitchRefused(p, scenarios); }
  }

  lemma SwitchRefused(p: Project, scenarios: seq<Scenario>)
    requires UniqueScenarioIds(scenarios) && CurrentTaskSet(p).Some? && Derive(CurrentTaskSet(p).value, scenarios).Some?
    requires var derived := Derive(CurrentTaskSet(p).value, scenarios).value; IdOf(derived) in p.store ==> p.store[IdOf(derived)] == Tasks(derived)
    ensures Select(p, scenarios).1.Selected? || Select(p, scenarios).1 == Refused(SelectionRefused)
  {
    hide SelectTaskSet, MinedTasks, Mean, AuthoredTasks;
  }

  lemma MinedMeans(tasks: seq<Task>)
    ensures MinedTasks(tasks) == [] <==> NoneMinedIn(tasks)
  {
    FilterKeepsTwo(IsMined(), tasks);
  }

  /** Selections keep build and review in step, accepted or refused. */
  lemma SelectKeepsInStep(p: Project, scenarios: seq<Scenario>)
    requires InStep(p)
    ensures InStep(Select(p, scenarios).0)
  {
    hide SelectTaskSet, MinedTasks, Mean, AuthoredTasks;
    var current := CurrentTaskSet(p);
    if current.Some? && Derive(current.value, scenarios).Some? {
      var derived := Derive(current.value, scenarios).value;
      SwitchKeepsPointers(p.(store := p.store[IdOf(derived) := Tasks(derived)]), PointerTo(derived));
    }
  }
}
