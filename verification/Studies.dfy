/** The study runner: immutable intents and terminal records around one external effect per job. */
module Studies {
  import opened Wrappers
  import opened StudyPlans

  datatype Status = Completed | Failure | Ambiguous | Blocked

  /** What one call of the external executor gives back. */
  datatype Reply = Returned(judges: nat, steps: nat, content: string) | Threw(error: string)

  /** A reported row; the job stands for its copied fields and its digest. */
  datatype Row = Row(job: Job, status: Status, detail: string)

  datatype Key = Registration(plan: string) | Intent(plan: string, job: string) | Terminal(plan: string, job: string)

  datatype Record = PlanRecord(plan: Plan) | JobRecord(job: Job) | RowRecord(row: Row)

  type Store = map<Key, Record>

  /** One call of the executor: the store as it was at that moment, and what the executor answered. */
  datatype Dispatch = Dispatch(plan: Plan, job: Job, store: Store, reply: Reply)

  datatype End = Running | Finished | Crashed | RegistrationChanged | WrongJob | MissingState

  /** `fuel` counts the saves and calls the process lives to make; a crash comes before the next one. */
  datatype Run = Run(store: Store, states: map<string, Status>, rows: seq<Row>, dispatched: seq<Dispatch>, fuel: nat, end: End)

  /** A reply completes the job only with exactly the registered denominators. */
  function RowFor(job: Job, reply: Reply): Row {
    match reply
    case Threw(error) => Row(job, Failure, error)
    case Returned(judges, steps, content) =>
      if judges == job.plannedJudges && steps == job.plannedSteps then Row(job, Completed, content) else Row(job, Failure, "ValueError")
  }

  function Noted(r: Run, row: Row): Run {
    r.(states := r.states[row.job.id := row.status], rows := r.rows + [row])
  }

  function Saved(r: Run, key: Key, record: Record): Run
    requires r.fuel > 0
  {
    r.(store := r.store[key := record], fuel := r.fuel - 1)
  }

  /** Saves the intent, calls the executor, saves the outcome. */
  function Executed(plan: Plan, job: Job, execute: Job -> Reply, r: Run): Run {
    if r.fuel == 0 then r.(end := Crashed) else
    var intended := Saved(r, Intent(plan.id, job.id), JobRecord(job));
    if intended.fuel == 0 then intended.(end := Crashed) else
    var called := intended.(dispatched := intended.dispatched + [Dispatch(plan, job, intended.store, execute(job))], fuel := intended.fuel - 1);
    if called.fuel == 0 then called.(end := Crashed) else
    var row := RowFor(job, execute(job));
    Noted(Saved(called, Terminal(plan.id, job.id), RowRecord(row)), row)
  }

  function Step(plan: Plan, job: Job, execute: Job -> Reply, r: Run): Run {
    if Terminal(plan.id, job.id) in r.store then
      var saved := r.store[Terminal(plan.id, job.id)];
      if saved.RowRecord? && saved.row.job == job then Noted(r, saved.row) else r.(end := WrongJob)
    else if Intent(plan.id, job.id) in r.store then
      Noted(r, Row(job, Ambiguous, ""))
    else if exists d | d in job.dependencies :: d !in r.states then
      r.(end := MissingState)
    else if exists d | d in job.dependencies :: r.states[d] != Completed then
      Noted(r, Row(job, Blocked, ""))
    else
      Executed(plan, job, execute, r)
  }

  function RunJobs(plan: Plan, i: nat, execute: Job -> Reply, r: Run): Run
    requires i <= |plan.jobs|
    decreases |plan.jobs| - i
  {
    if !r.end.Running? then r
    else if i == |plan.jobs| then r.(end := Finished)
    else RunJobs(plan, i + 1, execute, Step(plan, plan.jobs[i], execute, r))
  }

  function Begin(plan: Plan, store: Store, fuel: nat): Run {
    var r := Run(store, map[], [], [], fuel, Running);
    if Registration(plan.id) !in store then
      if fuel == 0 then r.(end := Crashed) else Saved(r, Registration(plan.id), PlanRecord(plan))
    else if store[Registration(plan.id)] != PlanRecord(plan) then r.(end := RegistrationChanged)
    else r
  }

  /** One whole run under the project lock. */
  function RunPlan(plan: Plan, execute: Job -> Reply, store: Store, fuel: nat): Run {
    RunJobs(plan, 0, execute, Begin(plan, store, fuel))
  }

  /** The project's immutable records and the executor's calls. */
  class ArtifactStore {
    var records: Store
    ghost var calls: seq<Dispatch>

    /** One job: replay its outcome, note why it cannot run, or save, call and save. */
    method RunJob(plan: Plan, job: Job, execute: Job -> Reply, states: map<string, Status>, fuel: nat,
                  ghost rows: seq<Row>, ghost dispatched: seq<Dispatch>)
      returns (end: End, row: Row, left: nat, ghost made: seq<Dispatch>)
      modifies this
      ensures calls == old(calls) + made
      ensures var step := Step(plan, job, execute, Run(old(records), states, rows, dispatched, fuel, Running));
              var r := Run(records, states, rows, dispatched + made, left, end);
              step == if end.Running? then Noted(r, row) else r
    {
      hide RowFor, Executed;
      end, left, made := Running, fuel, [];
      row := Row(job, Ambiguous, "");
      assert dispatched + [] == dispatched;
      if Terminal(plan.id, job.id) in records {
        var saved := records[Terminal(plan.id, job.id)];
        if !saved.RowRecord? || saved.row.job != job { end := WrongJob; return; }
        row := saved.row;
      } else if Intent(plan.id, job.id) in records {
        return;
      } else if exists d | d in job.dependencies :: d !in states {
        end := MissingState;
      } else if exists d | d in job.dependencies :: states[d] != Completed {
        row := Row(job, Blocked, "");
      } else {
        end, row, left, made := Call(plan, job, execute, states, fuel, rows, dispatched);
      }
    }

    method Call(plan: Plan, job: Job, execute: Job -> Reply, ghost states: map<string, Status>, fuel: nat,
                ghost rows: seq<Row>, ghost dispatched: seq<Dispatch>)
      returns (end: End, row: Row, left: nat, ghost made: seq<Dispatch>)
      modifies this
      ensures calls == old(calls) + made
      ensures var step := Executed(plan, job, execute, Run(old(records), states, rows, dispatched, fuel, Running));
              var r := Run(records, states, rows, dispatched + made, left, end);
              step == if end.Running? then Noted(r, row) else r
    {
      hide RowFor;
      end, left, made := Crashed, fuel, [];
      row := Row(job, Ambiguous, "");
      assert dispatched + [] == dispatched;
      if left == 0 { return; }
      records, left := records[Intent(plan.id, job.id) := JobRecord(job)], left - 1;
      if left == 0 { return; }
      made := [Dispatch(plan, job, records, execute(job))];
      calls, left := calls + made, left - 1;
      if left == 0 { return; }
      row := RowFor(job, execute(job));
      records, left := records[Terminal(plan.id, job.id) := RowRecord(row)], left - 1;
      end := Running;
    }

    /** Registers the plan once; a changed registration refuses the run. */
    method Register(plan: Plan, fuel: nat) returns (end: End, left: nat)
      modifies this`records
      ensures Begin(plan, old(records), fuel) == Run(records, map[], [], [], left, end)
    {
      end, left := Running, fuel;
      if Registration(plan.id) !in records {
        if left == 0 { return Crashed, left; }
        records, left := records[Registration(plan.id) := PlanRecord(plan)], left - 1;
      } else if records[Registration(plan.id)] != PlanRecord(plan) {
        end := RegistrationChanged;
      }
    }

    /** The runner's loop, cut off after `fuel` saves and calls. */
    method RunStudies(plan: Plan, execute: Job -> Reply, fuel: nat) returns (end: End, rows: seq<Row>)
      modifies this
      ensures var run := RunPlan(plan, execute, old(records), fuel);
              records == run.store && calls == old(calls) + run.dispatched && end == run.end && rows == run.rows
    {
      hide Step, Begin;
      rows := [];
      var left;
      end, left := Register(plan, fuel);
      if !end.Running? { return; }
      var states: map<string, Status> := map[];
      ghost var dispatched: seq<Dispatch> := [];
      ghost var target := RunPlan(plan, execute, old(records), fuel);
      hide RunPlan;
      for i := 0 to |plan.jobs|
        invariant calls == old(calls) + dispatched
        invariant target == RunJobs(plan, i, execute, Run(records, states, rows, dispatched, left, Running))
      {
        ghost var run := Run(records, states, rows, dispatched, left, Running);
        var row;
        ghost var made;
        end, row, left, made := RunJob(plan, plan.jobs[i], execute, states, left, rows, dispatched);
        ghost var r := Run(records, states, rows, dispatched + made, left, end);
        assert Step(plan, plan.jobs[i], execute, run) == if end.Running? then Noted(r, row) else r;
        dispatched := dispatched + made;
        if !end.Running? {
          return;
        }
        states, rows := states[row.job.id := row.status], rows + [row];
        assert Noted(r, row) == Run(records, states, rows, dispatched, left, Running);
      }
      end := Finished;
    }
  }
}
