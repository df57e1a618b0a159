/** What any number of interrupted study runs over one store can and cannot do. */
module StudyRuns {
  import opened Wrappers
  import opened StudyPlans
  import opened Studies

  ghost predicate PlanHas(plan: Plan, job: Job) {
    exists k :: 0 <= k < |plan.jobs| && plan.jobs[k] == job
  }

  /** Every record under a plan's name belongs to the one registered plan and to its own job. */
  ghost predicate Pinned(store: Store) {
    forall key :: key in store ==>
      match key
      case Registration(p) => store[key].PlanRecord? && store[key].plan.id == p && Ordered(store[key].plan.jobs)
      case Intent(p, j) =>
        && Registration(p) in store && store[Registration(p)].PlanRecord?
        && store[key].JobRecord? && store[key].job.id == j && PlanHas(store[Registration(p)].plan, store[key].job)
      case Terminal(p, j) =>
        && Registration(p) in store && store[Registration(p)].PlanRecord?
        && Intent(p, j) in store && store[key].RowRecord? && store[key].row.job.id == j
        && PlanHas(store[Registration(p)].plan, store[key].row.job)
        && (store[key].row.status == Completed || store[key].row.status == Failure)
  }

  /** Nothing saved is lost or replaced. */
  ghost predicate Grows(before: Store, after: Store) {
    forall key :: key in before ==> key in after && after[key] == before[key]
  }

  /** A call made with every dependency already saved as completed, and its own intent saved. */
  ghost predicate Ready(x: Dispatch) {
    && Intent(x.plan.id, x.job.id) in x.store
    && forall d :: d in x.job.dependencies ==>
      Terminal(x.plan.id, d) in x.store && x.store[Terminal(x.plan.id, d)].RowRecord?
      && x.store[Terminal(x.plan.id, d)].row.status == Completed
  }

  /** A calls log over a store: every call left its intent, and no job was called twice. */
  ghost predicate Once(store: Store, calls: seq<Dispatch>) {
    && (forall i :: 0 <= i < |calls| ==> Ready(calls[i]) && Intent(calls[i].plan.id, calls[i].job.id) in store)
    && forall i, j :: 0 <= i < j < |calls| ==> Intent(calls[i].plan.id, calls[i].job.id) != Intent(calls[j].plan.id, calls[j].job.id)
  }

  /** The outcome a reply deserves: completed exactly on the planned denominators, with the returned content; otherwise a failure with its error. */
  ghost predicate Deserved(job: Job, reply: Reply, row: Row) {
    && row.job == job
    && (row.status == Completed <==> reply.Returned? && reply.judges == job.plannedJudges && reply.steps == job.plannedSteps)
    && (row.status == Completed ==> row.detail == reply.content)
    && (row.status != Completed ==> row.status == Failure && row.detail == if reply.Threw? then reply.error else "ValueError")
  }

  /** This call gave that outcome. */
  ghost predicate Gave(x: Dispatch, key: Key, record: Record) {
    key == Terminal(x.plan.id, x.job.id) && record.RowRecord? && Deserved(x.job, x.reply, record.row)
  }

  /** What the store says about the row of job `k`. */
  ghost predicate RowHolds(plan: Plan, store: Store, rows: seq<Row>, k: nat)
    requires k < |rows| <= |plan.jobs|
  {
    var job := plan.jobs[k];
    var intent, terminal := Intent(plan.id, job.id), Terminal(plan.id, job.id);
    && rows[k].job == job
    && match rows[k].status
       case Completed => terminal in store && store[terminal] == RowRecord(rows[k])
       case Failure => terminal in store && store[terminal] == RowRecord(rows[k])
       case Ambiguous => terminal !in store && intent in store && rows[k] == Row(job, Ambiguous, "")
       case Blocked =>
         && terminal !in store && intent !in store && rows[k] == Row(job, Blocked, "")
         && exists e :: 0 <= e < k && plan.jobs[e].id in job.dependencies && rows[e].status != Completed
  }

  ghost predicate RowsHold(plan: Plan, store: Store, rows: seq<Row>) {
    |rows| <= |plan.jobs| && forall k :: 0 <= k < |rows| ==> RowHolds(plan, store, rows, k)
  }

  ghost predicate StatesMatch(jobs: seq<Job>, rows: seq<Row>, states: map<string, Status>) {
    && |rows| <= |jobs|
    && (forall k :: 0 <= k < |rows| ==> jobs[k].id in states && states[jobs[k].id] == rows[k].status)
    && forall id :: id in states ==> Registered(jobs[..|rows|], id)
  }

  ghost predicate Registers(store: Store, plan: Plan) {
    Registration(plan.id) in store && store[Registration(plan.id)] == PlanRecord(plan)
  }

  /** The loop's invariant before job `|rows|`. */
  ghost predicate Underway(plan: Plan, r: Run) {
    && Ordered(plan.jobs) && Pinned(r.store) && Registers(r.store, plan)
    && RowsHold(plan, r.store, r.rows) && StatesMatch(plan.jobs, r.rows, r.states)
  }

  /** All dependencies of the next job have a state. */
  lemma StatesDefined(plan: Plan, r: Run, d: string)
    requires Underway(plan, r) && |r.rows| < |plan.jobs| && d in plan.jobs[|r.rows|].dependencies
    ensures d in r.states
    ensures exists e :: 0 <= e < |r.rows| && plan.jobs[e].id == d && r.states[d] == r.rows[e].status
  {
    var i := |r.rows|;
    assert FollowsEarlier(plan.jobs[..i], plan.jobs[i]);
    var e :| 0 <= e < i && plan.jobs[..i][e].id == d;
    assert plan.jobs[e].id == d;
  }

  lemma NotedKeepsStates(plan: Plan, r: Run, row: Row)
    requires Ordered(plan.jobs) && StatesMatch(plan.jobs, r.rows, r.states) && |r.rows| < |plan.jobs| && row.job == plan.jobs[|r.rows|]
    ensures StatesMatch(plan.jobs, Noted(r, row).rows, Noted(r, row).states)
  {
    hide FollowsEarlier, KeepsPhase, RegisteredIn;
    var i := |r.rows|;
    RegisteredNext(plan.jobs, i);
    forall k | 0 <= k < i
      ensures plan.jobs[k].id != row.job.id
    {
      DistinctIds(plan.jobs, k, i);
    }
  }

  /** Records of one job do not matter to the rows of the others. */
  lemma RowsFrame(plan: Plan, before: Store, after: Store, rows: seq<Row>)
    requires Ordered(plan.jobs) && RowsHold(plan, before, rows) && Grows(before, after)
    requires forall key :: key in after && key !in before ==>
               key.Registration? || key.plan != plan.id || forall k :: 0 <= k < |rows| ==> key.job != plan.jobs[k].id
    ensures RowsHold(plan, after, rows)
  {
    forall k | 0 <= k < |rows|
      ensures RowHolds(plan, after, rows, k)
    {
      assert RowHolds(plan, before, rows, k);
    }
  }

  lemma RowsExtend(plan: Plan, store: Store, rows: seq<Row>, row: Row)
    requires RowsHold(plan, store, rows) && |rows| < |plan.jobs| && RowHolds(plan, store, rows + [row], |rows|)
    ensures RowsHold(plan, store, rows + [row])
  {
    forall k | 0 <= k < |rows|
      ensures RowHolds(plan, store, rows + [row], k)
    {
      assert RowHolds(plan, store, rows, k);
    }
  }

  /** What one job may do to store and calls. */
  ghost predicate StepOk(plan: Plan, job: Job, r: Run, s: Run) {
    && Pinned(s.store) && Grows(r.store, s.store)
    && (forall key :: key in s.store && key !in r.store ==> key == Intent(plan.id, job.id) || key == Terminal(plan.id, job.id))
    && (s.dispatched == r.dispatched
        || (exists st, reply :: s.dispatched == r.dispatched + [Dispatch(plan, job, st, reply)] && Ready(Dispatch(plan, job, st, reply))
                                && Intent(plan.id, job.id) !in r.store && Intent(plan.id, job.id) in s.store))
    && (forall key :: key in s.store && key !in r.store && key.Terminal? ==>
          s.dispatched != r.dispatched && Gave(s.dispatched[|s.dispatched| - 1], key, s.store[key]))
    && (Intent(plan.id, job.id) in r.store ==> s.store == r.store)
    && (s.end.Running? || s.end.Crashed?)
    && (s.end.Running? ==> Underway(plan, s) && |s.rows| == |r.rows| + 1)
  }

  /** The next job may be called. */
  ghost predicate Callable(plan: Plan, r: Run) {
    && Underway(plan, r) && r.end.Running? && |r.rows| < |plan.jobs|
    && var job := plan.jobs[|r.rows|];
    && Terminal(plan.id, job.id) !in r.store && Intent(plan.id, job.id) !in r.store
    && forall d :: d in job.dependencies ==> d in r.states && r.states[d] == Completed
  }

  lemma IntentReady(plan: Plan, r: Run, reply: Reply)
    requires Callable(plan, r)
    ensures var job := plan.jobs[|r.rows|];
            Ready(Dispatch(plan, job, r.store[Intent(plan.id, job.id) := JobRecord(job)], reply))
  {
    var job := plan.jobs[|r.rows|];
    forall d | d in job.dependencies
      ensures Terminal(plan.id, d) in r.store && r.store[Terminal(plan.id, d)].RowRecord?
      ensures r.store[Terminal(plan.id, d)].row.status == Completed
    {
      StatesDefined(plan, r, d);
      var e :| 0 <= e < |r.rows| && plan.jobs[e].id == d && r.states[d] == r.rows[e].status;
      assert RowHolds(plan, r.store, r.rows, e);
    }
  }

  lemma PinnedIntent(store: Store, plan: Plan, job: Job)
    requires Pinned(store) && Registers(store, plan) && PlanHas(plan, job) && Intent(plan.id, job.id) !in store
    ensures Pinned(store[Intent(plan.id, job.id) := JobRecord(job)])
  {
  }

  lemma PinnedTerminal(store: Store, plan: Plan, job: Job, row: Row)
    requires Pinned(store) && Registers(store, plan) && PlanHas(plan, job) && row.job == job && (row.status.Completed? || row.status.Failure?)
    requires Intent(plan.id, job.id) in store && Terminal(plan.id, job.id) !in store
    ensures Pinned(store[Terminal(plan.id, job.id) := RowRecord(row)])
  {
  }

  lemma ExecutedOk(plan: Plan, execute: Job -> Reply, r: Run)
    requires Callable(plan, r)
    ensures var job := plan.jobs[|r.rows|]; StepOk(plan, job, r, Executed(plan, job, execute, r))
  {
    hide Pinned, RowHolds, Ready, StatesMatch, Ordered;
    var i := |r.rows|;
    var job := plan.jobs[i];
    var s := Executed(plan, job, execute, r);
    assert PlanHas(plan, job);
    if r.fuel > 0 {
      var intended := r.store[Intent(plan.id, job.id) := JobRecord(job)];
      PinnedIntent(r.store, plan, job);
      IntentReady(plan, r, execute(job));
      assert Saved(r, Intent(plan.id, job.id), JobRecord(job)).store == intended;
      if s.end.Running? {
        var row := RowFor(job, execute(job));
        PinnedTerminal(intended, plan, job, row);
        ExecutedRows(plan, r, row, s);
      }
    }
  }

  lemma ExecutedRows(plan: Plan, r: Run, row: Row, s: Run)
    requires Underway(plan, r) && |r.rows| < |plan.jobs| && (row.status.Completed? || row.status.Failure?)
    requires var job := plan.jobs[|r.rows|];
             && row.job == job && s.rows == r.rows + [row] && s.states == r.states[job.id := row.status]
             && s.store == r.store[Intent(plan.id, job.id) := JobRecord(job)][Terminal(plan.id, job.id) := RowRecord(row)]
             && Terminal(plan.id, job.id) !in r.store && Intent(plan.id, job.id) !in r.store
    requires Pinned(s.store)
    ensures Underway(plan, s)
  {
    hide Pinned, Ready, Ordered;
    var i := |r.rows|;
    forall k | 0 <= k < i
      ensures plan.jobs[k].id != plan.jobs[i].id
    {
      DistinctIds(plan.jobs, k, i);
    }
    RowsFrame(plan, r.store, s.store, r.rows);
    RowsExtend(plan, s.store, r.rows, row);
    NotedKeepsStates(plan, r, row);
  }

  /** A row that only reads the store. */
  lemma ReadRowOk(plan: Plan, r: Run, row: Row)
    requires Underway(plan, r) && r.end.Running? && |r.rows| < |plan.jobs| && row.job == plan.jobs[|r.rows|]
    requires RowHolds(plan, r.store, r.rows + [row], |r.rows|)
    ensures StepOk(plan, plan.jobs[|r.rows|], r, Noted(r, row))
  {
    hide Pinned, Ready, Ordered;
    RowsExtend(plan, r.store, r.rows, row);
    NotedKeepsStates(plan, r, row);
  }

  lemma BlockedOk(plan: Plan, r: Run, d: string)
    requires Underway(plan, r) && r.end.Running? && |r.rows| < |plan.jobs|
    requires var job := plan.jobs[|r.rows|];
             && Terminal(plan.id, job.id) !in r.store && Intent(plan.id, job.id) !in r.store
             && d in job.dependencies && d in r.states && r.states[d] != Completed
    ensures var job := plan.jobs[|r.rows|]; StepOk(plan, job, r, Noted(r, Row(job, Blocked, "")))
  {
    hide StepOk, Pinned, Ready, Ordered, RowsHold;
    var row := Row(plan.jobs[|r.rows|], Blocked, "");
    StatesDefined(plan, r, d);
    var e :| 0 <= e < |r.rows| && plan.jobs[e].id == d && r.states[d] == r.rows[e].status;
    assert (r.rows + [row])[e] == r.rows[e];
    ReadRowOk(plan, r, row);
  }

  /** A saved outcome is read back as it is. */
  lemma SavedOk(plan: Plan, execute: Job -> Reply, r: Run)
    requires Underway(plan, r) && r.end.Running? && |r.rows| < |plan.jobs|
    requires Terminal(plan.id, plan.jobs[|r.rows|].id) in r.store
    ensures var job := plan.jobs[|r.rows|]; StepOk(plan, job, r, Step(plan, job, execute, r))
  {
    hide StepOk, Ready, RowsHold, StatesMatch, Executed;
    var job := plan.jobs[|r.rows|];
    var row := r.store[Terminal(plan.id, job.id)].row;
    var k :| 0 <= k < |plan.jobs| && plan.jobs[k] == row.job;
    UniqueIds(plan.jobs, k, |r.rows|);
    ReadRowOk(plan, r, row);
  }

  lemma StepKeeps(plan: Plan, execute: Job -> Reply, r: Run)
    requires Underway(plan, r) && r.end.Running? && |r.rows| < |plan.jobs|
    ensures var job := plan.jobs[|r.rows|]; StepOk(plan, job, r, Step(plan, job, execute, r))
  {
    hide Ready, StepOk, RowsHold, StatesMatch, Executed, Pinned, Ordered;
    var job := plan.jobs[|r.rows|];
    forall d | d in job.dependencies ensures d in r.states { StatesDefined(plan, r, d); }
    if Terminal(plan.id, job.id) in r.store {
      SavedOk(plan, execute, r);
    } else if Intent(plan.id, job.id) in r.store {
      ReadRowOk(plan, r, Row(job, Ambiguous, ""));
    } else if d :| d in job.dependencies && r.states[d] != Completed {
      BlockedOk(plan, r, d);
    } else {
      ExecutedOk(plan, execute, r);
    }
  }

  /** An intent that was already there never gets an outcome later. */
  ghost predicate NoLateOutcome(before: Store, after: Store) {
    forall p, j :: Intent(p, j) in before && Terminal(p, j) in after ==> Terminal(p, j) in before
  }

  /** Every outcome saved since then is what one of these calls gave. */
  ghost predicate AnsweredSince(before: Store, after: Store, calls: seq<Dispatch>) {
    forall key :: key in after && key !in before && key.Terminal? ==> exists i :: 0 <= i < |calls| && Gave(calls[i], key, after[key])
  }

  lemma AnsweredThen(before: Store, middle: Store, after: Store, calls: seq<Dispatch>, more: seq<Dispatch>)
    requires Grows(middle, after) && AnsweredSince(before, middle, calls) && AnsweredSince(middle, after, more)
    ensures AnsweredSince(before, after, calls + more)
  {
    hide Gave;
    forall key | key in after && key !in before && key.Terminal?
      ensures exists i :: 0 <= i < |calls + more| && Gave((calls + more)[i], key, after[key])
    {
      if key in middle {
        var i :| 0 <= i < |calls| && Gave(calls[i], key, middle[key]);
        assert (calls + more)[i] == calls[i];
      } else {
        var i :| 0 <= i < |more| && Gave(more[i], key, after[key]);
        assert (calls + more)[|calls| + i] == more[i];
      }
    }
  }

  /** What a run has added so far to the store and the calls before it. */
  ghost predicate Sofar(plan: Plan, before: Store, calls: seq<Dispatch>, after: Store, made: seq<Dispatch>) {
    && Grows(before, after) && Once(after, calls + made) && NoLateOutcome(before, after) && AnsweredSince(before, after, made)
    && forall key :: key in after && key !in before ==> key.plan == plan.id
  }

  /** What a whole run leaves. */
  ghost predicate RunOk(plan: Plan, before: Store, calls: seq<Dispatch>, r: Run) {
    && Pinned(r.store) && Sofar(plan, before, calls, r.store, r.dispatched)
    && (r.end.Finished? || r.end.Crashed? || r.end.RegistrationChanged?)
    && (r.end.Finished? ==> |r.rows| == |plan.jobs| && RowsHold(plan, r.store, r.rows) && Registers(r.store, plan))
  }

  lemma {:induction false} RunJobsKeep(plan: Plan, execute: Job -> Reply, before: Store, calls: seq<Dispatch>, r: Run)
    requires Underway(plan, r) && r.end.Running?
    requires Sofar(plan, before, calls, r.store, r.dispatched)
    ensures RunOk(plan, before, calls, RunJobs(plan, |r.rows|, execute, r))
    decreases |plan.jobs| - |r.rows|
  {
    hide Step, Ordered, StatesMatch, Sofar;
    if |r.rows| < |plan.jobs| {
      var job := plan.jobs[|r.rows|];
      StepKeeps(plan, execute, r);
      var s := Step(plan, job, execute, r);
      StepAdds(plan, job, before, calls, r, s);
      if s.end.Running? {
        RunJobsKeep(plan, execute, before, calls, s);
      } else {
        assert RunJobs(plan, |r.rows| + 1, execute, s) == s;
      }
    }
  }

  lemma StepAdds(plan: Plan, job: Job, before: Store, calls: seq<Dispatch>, r: Run, s: Run)
    requires StepOk(plan, job, r, s) && Sofar(plan, before, calls, r.store, r.dispatched)
    ensures Sofar(plan, before, calls, s.store, s.dispatched)
  {
    CallsExtend(plan, job, calls, r, s);
    AnswersExtend(plan, job, before, r, s);
    hide Pinned, Once, Ready, AnsweredSince, Gave, Underway;
  }

  lemma CallsExtend(plan: Plan, job: Job, calls: seq<Dispatch>, r: Run, s: Run)
    requires StepOk(plan, job, r, s) && Once(r.store, calls + r.dispatched)
    ensures Once(s.store, calls + s.dispatched)
  {
    hide Pinned, Underway, Ready, Gave;
    if s.dispatched != r.dispatched {
      var st, reply :| s.dispatched == r.dispatched + [Dispatch(plan, job, st, reply)] && Ready(Dispatch(plan, job, st, reply));
      assert calls + s.dispatched == (calls + r.dispatched) + [Dispatch(plan, job, st, reply)];
    }
  }

  lemma AnswersExtend(plan: Plan, job: Job, before: Store, r: Run, s: Run)
    requires StepOk(plan, job, r, s) && Grows(before, r.store) && AnsweredSince(before, r.store, r.dispatched)
    ensures AnsweredSince(before, s.store, s.dispatched)
  {
    hide Pinned, Underway, Ready, Gave;
    var more := s.dispatched[|r.dispatched|..];
    assert s.dispatched == r.dispatched + more;
    assert AnsweredSince(r.store, s.store, more) by {
      forall key | key in s.store && key !in r.store && key.Terminal? ensures |more| > 0 && Gave(more[|more| - 1], key, s.store[key]) {
        assert s.dispatched != r.dispatched;
      }
    }
    AnsweredThen(before, r.store, s.store, r.dispatched, more);
  }

  /** The executor's own answers to calls for this plan. */
  ghost predicate Asked(plan: Plan, execute: Job -> Reply, calls: seq<Dispatch>) {
    forall i :: 0 <= i < |calls| ==> calls[i].plan == plan && calls[i].reply == execute(calls[i].job)
  }

  lemma {:induction false} RunAsks(plan: Plan, i: nat, execute: Job -> Reply, r: Run)
    requires i <= |plan.jobs| && Asked(plan, execute, r.dispatched)
    ensures Asked(plan, execute, RunJobs(plan, i, execute, r).dispatched)
    decreases |plan.jobs| - i
  {
    hide RowFor;
    if r.end.Running? && i < |plan.jobs| { RunAsks(plan, i + 1, execute, Step(plan, plan.jobs[i], execute, r)); }
  }

  lemma PinnedRegistration(store: Store, plan: Plan)
    requires Pinned(store) && Ordered(plan.jobs) && Registration(plan.id) !in store
    ensures Pinned(store[Registration(plan.id) := PlanRecord(plan)])
  {
    hide Ordered;
  }

  lemma BeginKeeps(plan: Plan, store: Store, calls: seq<Dispatch>, fuel: nat)
    requires Ordered(plan.jobs) && Pinned(store) && Once(store, calls)
    ensures var r := Begin(plan, store, fuel);
            && Pinned(r.store) && Sofar(plan, store, calls, r.store, r.dispatched) && r.rows == []
            && (r.end.Running? ==> Underway(plan, r)) && (r.end.Running? || r.end.Crashed? || r.end.RegistrationChanged?)
  {
    if Registration(plan.id) !in store { PinnedRegistration(store, plan); }
    hide Pinned, Ready, Gave, FollowsEarlier, KeepsPhase;
    assert calls + [] == calls;
  }

  lemma RunKeeps(plan: Plan, execute: Job -> Reply, store: Store, calls: seq<Dispatch>, fuel: nat)
    requires Ordered(plan.jobs) && Pinned(store) && Once(store, calls)
    ensures RunOk(plan, store, calls, RunPlan(plan, execute, store, fuel))
  {
    hide Step, Begin, Sofar, Underway, Pinned, Ordered, Once;
    BeginKeeps(plan, store, calls, fuel);
    var r := Begin(plan, store, fuel);
    if r.end.Running? { RunJobsKeep(plan, execute, store, calls, r); }
  }

  /** A step spends at most three saves and calls, and leaves a job in doubt only over an intent that was there. */
  lemma StepSpends(plan: Plan, job: Job, execute: Job -> Reply, r: Run)
    requires r.end.Running? && forall d :: d in job.dependencies ==> d in r.states
    ensures var s := Step(plan, job, execute, r);
            && s.fuel + 3 >= r.fuel && (s.end.Crashed? ==> r.fuel < 3)
            && (s.end.Running? ==> |s.rows| == |r.rows| + 1 && s.rows[..|r.rows|] == r.rows)
            && (s.end.Running? && s.rows[|r.rows|].status == Ambiguous && Terminal(plan.id, job.id) !in r.store ==> Intent(plan.id, job.id) in r.store)
  {
  }

  /** Rows in doubt are over intents from before, and later jobs have no intent of this run. */
  ghost predicate OldDoubts(plan: Plan, before: Store, store: Store, rows: seq<Row>) {
    && |rows| <= |plan.jobs|
    && (forall k :: 0 <= k < |rows| && rows[k].status == Ambiguous ==> Intent(plan.id, plan.jobs[k].id) in before)
    && forall k :: |rows| <= k < |plan.jobs| && Intent(plan.id, plan.jobs[k].id) in store ==> Intent(plan.id, plan.jobs[k].id) in before
  }

  lemma DoubtsExtend(plan: Plan, before: Store, store: Store, after: Store, rows: seq<Row>, row: Row)
    requires OldDoubts(plan, before, store, rows) && |rows| < |plan.jobs| && Ordered(plan.jobs)
    requires var id := plan.jobs[|rows|].id;
             && (forall key :: key in after && key !in store ==> key == Intent(plan.id, id) || key == Terminal(plan.id, id))
             && (row.status == Ambiguous ==> Intent(plan.id, id) in store)
    ensures OldDoubts(plan, before, after, rows + [row])
  {
    forall k | |rows| < k < |plan.jobs| ensures plan.jobs[k].id != plan.jobs[|rows|].id { DistinctIds(plan.jobs, |rows|, k); }
    hide Ordered;
  }

  lemma AmbiguousIsOpen(plan: Plan, r: Run, k: nat)
    requires Underway(plan, r) && k < |r.rows| && r.rows[k].status == Ambiguous
    ensures k < |plan.jobs| && Terminal(plan.id, plan.jobs[k].id) !in r.store
  {
    hide Pinned, Ordered, StatesMatch;
    assert RowHolds(plan, r.store, r.rows, k);
  }

  lemma DoubtsStay(plan: Plan, execute: Job -> Reply, before: Store, r: Run)
    requires Underway(plan, r) && r.end.Running? && |r.rows| < |plan.jobs| && OldDoubts(plan, before, r.store, r.rows)
    ensures var s := Step(plan, plan.jobs[|r.rows|], execute, r);
            && s.fuel + 3 >= r.fuel && (s.end.Crashed? ==> r.fuel < 3)
            && (s.end.Running? ==> OldDoubts(plan, before, s.store, s.rows))
  {
    hide Step, Pinned, Ordered, StatesMatch, Ready, Gave, RowHolds, OldDoubts;
    var i := |r.rows|;
    var job := plan.jobs[i];
    forall d | d in job.dependencies ensures d in r.states { StatesDefined(plan, r, d); }
    StepSpends(plan, job, execute, r);
    StepKeeps(plan, execute, r);
    var s := Step(plan, job, execute, r);
    if s.end.Running? {
      if s.rows[i].status == Ambiguous { AmbiguousIsOpen(plan, s, i); }
      hide Underway, RowsHold;
      assert s.rows == r.rows + [s.rows[i]];
      DoubtsExtend(plan, before, r.store, s.store, r.rows, s.rows[i]);
    }
  }

  lemma {:induction false} JobsFinish(plan: Plan, execute: Job -> Reply, before: Store, r: Run)
    requires Underway(plan, r) && r.end.Running? && |r.rows| <= |plan.jobs| && OldDoubts(plan, before, r.store, r.rows)
    ensures var s := RunJobs(plan, |r.rows|, execute, r);
            && (s.end.Finished? ==> OldDoubts(plan, before, s.store, s.rows))
            && (r.fuel >= 3 * (|plan.jobs| - |r.rows|) ==> s.end.Finished?)
    decreases |plan.jobs| - |r.rows|
  {
    if |r.rows| < |plan.jobs| {
      DoubtsStay(plan, execute, before, r);
      StepKeeps(plan, execute, r);
      hide Step, Underway, OldDoubts, Pinned, Gave, Ready;
      var s := Step(plan, plan.jobs[|r.rows|], execute, r);
      if s.end.Running? { JobsFinish(plan, execute, before, s); } else { assert RunJobs(plan, |r.rows| + 1, execute, s) == s; }
    }
  }

  lemma BeginOpens(plan: Plan, store: Store, fuel: nat)
    requires fuel > 0 && Pinned(store)
    ensures var r := Begin(plan, store, fuel);
            && (r.end.Running? <==> Registration(plan.id) in store ==> store[Registration(plan.id)] == PlanRecord(plan))
            && r.fuel + 1 >= fuel && OldDoubts(plan, store, r.store, r.rows)
  {
    hide Pinned;
  }

  /** Progress: a run that nothing cuts off finishes exactly when the plan is not registered differently, and leaves a job in doubt exactly
      where an earlier run left its intent without an outcome. */
  lemma UncutRunFinishes(plan: Plan, execute: Job -> Reply, store: Store, calls: seq<Dispatch>, fuel: nat)
    requires Ordered(plan.jobs) && Pinned(store) && Once(store, calls) && fuel > 3 * |plan.jobs|
    ensures var r := RunPlan(plan, execute, store, fuel);
            && (r.end.Finished? <==> Registration(plan.id) in store ==> store[Registration(plan.id)] == PlanRecord(plan))
            && (r.end.Finished? ==> |r.rows| == |plan.jobs| && forall k :: 0 <= k < |r.rows| ==>
                  (r.rows[k].status == Ambiguous <==>
                     Intent(plan.id, plan.jobs[k].id) in store && Terminal(plan.id, plan.jobs[k].id) !in store))
  {
    hide Step, Begin, Pinned, Ordered, Once, Underway, AnsweredSince, OldDoubts;
    RunKeeps(plan, execute, store, calls, fuel);
    BeginKeeps(plan, store, calls, fuel);
    BeginOpens(plan, store, fuel);
    var r := Begin(plan, store, fuel);
    if r.end.Running? {
      JobsFinish(plan, execute, store, r);
      var s := RunPlan(plan, execute, store, fuel);
      hide RunJobs, RunPlan;
      DoubtsAreOld(plan, store, s.store, s.rows);
    }
  }

  lemma DoubtsAreOld(plan: Plan, before: Store, after: Store, rows: seq<Row>)
    requires OldDoubts(plan, before, after, rows) && RowsHold(plan, after, rows) && |rows| == |plan.jobs|
    requires Grows(before, after) && NoLateOutcome(before, after)
    ensures forall k :: 0 <= k < |rows| ==>
              (rows[k].status == Ambiguous <==> Intent(plan.id, plan.jobs[k].id) in before && Terminal(plan.id, plan.jobs[k].id) !in before)
  {
    forall k | 0 <= k < |rows|
      ensures rows[k].status == Ambiguous <==> Intent(plan.id, plan.jobs[k].id) in before && Terminal(plan.id, plan.jobs[k].id) !in before
    {
      assert RowHolds(plan, after, rows, k);
    }
  }

  /** Why a run over any store, whoever wrote it, ended. */
  ghost predicate EndTells(plan: Plan, store: Store, r: Run) {
    && |r.rows| <= |plan.jobs| && (forall k :: 0 <= k < |r.rows| ==> r.rows[k].job == plan.jobs[k])
    && match r.end
       case Running => true
       case Finished => |r.rows| == |plan.jobs|
       case Crashed => r.fuel == 0
       case RegistrationChanged => Registration(plan.id) in store && store[Registration(plan.id)] != PlanRecord(plan)
       case WrongJob =>
         && |r.rows| < |plan.jobs| && Terminal(plan.id, plan.jobs[|r.rows|].id) in r.store
         && !BelongsTo(r.store[Terminal(plan.id, plan.jobs[|r.rows|].id)], plan.jobs[|r.rows|])
       case MissingState => |r.rows| < |plan.jobs| && exists d :: d in plan.jobs[|r.rows|].dependencies && d !in r.states
  }

  ghost predicate BelongsTo(record: Record, job: Job) { record.RowRecord? && record.row.job == job }

  lemma StepTells(plan: Plan, execute: Job -> Reply, store: Store, r: Run)
    requires EndTells(plan, store, r) && r.end.Running? && |r.rows| < |plan.jobs|
    ensures var s := Step(plan, plan.jobs[|r.rows|], execute, r); EndTells(plan, store, s) && (s.end.Running? ==> |s.rows| == |r.rows| + 1)
  {
    hide Registered;
  }

  /** Each new record and each call spends one unit of fuel, so a run can be cut off between any two of them. */
  ghost predicate Spent(before: Store, calls: nat, fuel: nat, r: Run) { |r.store.Keys| + |r.dispatched| + r.fuel == |before.Keys| + calls + fuel }

  lemma RecordAdded(store: Store, key: Key, record: Record)
    requires key !in store
    ensures |store[key := record].Keys| == |store.Keys| + 1
  {
    assert store[key := record].Keys == store.Keys + {key};
  }

  lemma StepSpendsEach(plan: Plan, job: Job, execute: Job -> Reply, r: Run)
    ensures Spent(r.store, |r.dispatched|, r.fuel, Step(plan, job, execute, r))
  {
    var (intent, terminal) := (Intent(plan.id, job.id), Terminal(plan.id, job.id));
    if intent !in r.store && terminal !in r.store {
      RecordAdded(r.store, intent, JobRecord(job));
      RecordAdded(r.store[intent := JobRecord(job)], terminal, RowRecord(RowFor(job, execute(job))));
    }
    hide RowFor;
  }

  lemma {:induction false} JobsTell(plan: Plan, execute: Job -> Reply, store: Store, r: Run)
    requires EndTells(plan, store, r) && (r.end.Running? || r.end.Crashed? || r.end.RegistrationChanged?)
    ensures var s := RunJobs(plan, |r.rows|, execute, r);
            EndTells(plan, store, s) && !s.end.Running? && Spent(r.store, |r.dispatched|, r.fuel, s)
    decreases |plan.jobs| - |r.rows|
  {
    if r.end.Running? && |r.rows| < |plan.jobs| {
      StepTells(plan, execute, store, r);
      StepSpendsEach(plan, plan.jobs[|r.rows|], execute, r);
      hide Step, EndTells;
      var s := Step(plan, plan.jobs[|r.rows|], execute, r);
      if s.end.Running? { JobsTell(plan, execute, store, s); } else { assert RunJobs(plan, |r.rows| + 1, execute, s) == s; }
    }
  }

  /** Over any store, even one these runs did not write: the end of a run tells why it ended, a finished run has one row for each job in
      order, and a run stops for want of fuel exactly between two of its saves and calls. */
  lemma RunEndTells(plan: Plan, execute: Job -> Reply, store: Store, fuel: nat)
    ensures var r := RunPlan(plan, execute, store, fuel);
            EndTells(plan, store, r) && !r.end.Running? && Spent(store, 0, fuel, r)
  {
    if Registration(plan.id) !in store { RecordAdded(store, Registration(plan.id), PlanRecord(plan)); }
    var r := Begin(plan, store, fuel);
    hide Step;
    JobsTell(plan, execute, store, r);
  }

  /** One run of one plan: any executor, cut off anywhere. */
  datatype Session = Session(plan: Plan, execute: Job -> Reply, fuel: nat)

  ghost predicate Accepted(sessions: seq<Session>) {
    forall k :: 0 <= k < |sessions| ==> Ordered(sessions[k].plan.jobs)
  }

  /** Store and calls after a sequence of runs. */
  ghost function Campaign(store: Store, calls: seq<Dispatch>, sessions: seq<Session>): (Store, seq<Dispatch>)
    decreases |sessions|
  {
    if sessions == [] then (store, calls) else
    var r := RunPlan(sessions[0].plan, sessions[0].execute, store, sessions[0].fuel);
    Campaign(r.store, calls + r.dispatched, sessions[1..])
  }

  /** A call that some session made. */
  ghost predicate MadeBy(sessions: seq<Session>, x: Dispatch) {
    exists k :: 0 <= k < |sessions| && sessions[k].plan == x.plan && sessions[k].execute(x.job) == x.reply
  }

  lemma {:induction false} CampaignAnswers(store: Store, calls: seq<Dispatch>, sessions: seq<Session>) returns (made: seq<Dispatch>)
    requires Accepted(sessions) && Pinned(store) && Once(store, calls)
    ensures var (s, c) := Campaign(store, calls, sessions);
            c == calls + made && AnsweredSince(store, s, made) && forall i :: 0 <= i < |made| ==> MadeBy(sessions, made[i])
    decreases |sessions|
  {
    hide Pinned, Once, RunPlan, AnsweredSince;
    made := [];
    if sessions == [] {
      assert AnsweredSince(store, store, []) by { NothingAnswered(store); }
    } else {
      var (plan, execute) := (sessions[0].plan, sessions[0].execute);
      RunKeeps(plan, execute, store, calls, sessions[0].fuel);
      PlanAsks(plan, execute, store, sessions[0].fuel);
      var r := RunPlan(plan, execute, store, sessions[0].fuel);
      CampaignKeeps(r.store, calls + r.dispatched, sessions[1..]);
      var rest := CampaignAnswers(r.store, calls + r.dispatched, sessions[1..]);
      made := r.dispatched + rest;
      var s := Campaign(store, calls, sessions).0;
      AnsweredThen(store, r.store, s, r.dispatched, rest);
      assert calls + made == calls + r.dispatched + rest;
      forall i | 0 <= i < |made| ensures MadeBy(sessions, made[i]) {
        if i < |r.dispatched| {
          assert made[i] == r.dispatched[i];
          assert sessions[0].plan == made[i].plan;
        } else {
          assert MadeBy(sessions[1..], made[i]);
          var k :| 0 <= k < |sessions[1..]| && sessions[1..][k].plan == made[i].plan && sessions[1..][k].execute(made[i].job) == made[i].reply;
          assert sessions[k + 1] == sessions[1..][k];
        }
      }
    }
  }

  lemma NothingAnswered(store: Store)
    ensures AnsweredSince(store, store, [])
  {
  }

  lemma PlanAsks(plan: Plan, execute: Job -> Reply, store: Store, fuel: nat)
    ensures Asked(plan, execute, RunPlan(plan, execute, store, fuel).dispatched)
  {
    hide Step, RunJobs;
    RunAsks(plan, 0, execute, Begin(plan, store, fuel));
  }

  /** Over any runs, every saved outcome is the one that the reply to its job's call deserves, and that reply is what the executor of one
      of the runs of that plan gave. */
  lemma OutcomesAreReplies(sessions: seq<Session>)
    requires Accepted(sessions)
    ensures var (store, calls) := Campaign(map[], [], sessions);
            && (forall key :: key in store && key.Terminal? ==> exists i :: 0 <= i < |calls| && Gave(calls[i], key, store[key]))
            && forall i :: 0 <= i < |calls| ==> MadeBy(sessions, calls[i])
  {
    hide Gave, MadeBy;
    var made := CampaignAnswers(map[], [], sessions);
    assert [] + made == made;
  }

  lemma {:induction false} CampaignKeeps(store: Store, calls: seq<Dispatch>, sessions: seq<Session>)
    requires Accepted(sessions) && Pinned(store) && Once(store, calls)
    ensures var (s, c) := Campaign(store, calls, sessions); Pinned(s) && Once(s, c) && Grows(store, s) && NoLateOutcome(store, s)
    decreases |sessions|
  {
    hide Pinned, Once, RunPlan;
    if sessions != [] {
      RunKeeps(sessions[0].plan, sessions[0].execute, store, calls, sessions[0].fuel);
      var r := RunPlan(sessions[0].plan, sessions[0].execute, store, sessions[0].fuel);
      CampaignKeeps(r.store, calls + r.dispatched, sessions[1..]);
    }
  }

  /** At most once: over any runs of any plans, each cut off anywhere, a plan's job is handed to the executor
      at most once, with its intent saved and every dependency saved as completed. */
  lemma AtMostOnce(sessions: seq<Session>)
    requires Accepted(sessions)
    ensures var (store, calls) := Campaign(map[], [], sessions);
            && (forall i :: 0 <= i < |calls| ==> Ready(calls[i]))
            && forall i, j :: 0 <= i < j < |calls| ==> (calls[i].plan.id, calls[i].job.id) != (calls[j].plan.id, calls[j].job.id)
  {
    CampaignKeeps(map[], [], sessions);
  }

  /** Registration pins the plan: a saved result never belongs to another job, and no lookup misses. */
  lemma NeverAnotherJob(sessions: seq<Session>, next: Session)
    requires Accepted(sessions) && Ordered(next.plan.jobs)
    ensures var (store, _) := Campaign(map[], [], sessions);
            var end := RunPlan(next.plan, next.execute, store, next.fuel).end;
            !end.WrongJob? && !end.MissingState?
  {
    CampaignKeeps(map[], [], sessions);
    var (store, calls) := Campaign(map[], [], sessions);
    RunKeeps(next.plan, next.execute, store, calls, next.fuel);
  }

  /** Between runs, a saved outcome is final, and an intent left without one stays ambiguous for good. */
  lemma OutcomesAbsorb(before: seq<Session>, between: seq<Session>, plan: string, job: string)
    requires Accepted(before) && Accepted(between)
    ensures var (s, calls) := Campaign(map[], [], before);
            var (t, _) := Campaign(s, calls, between);
            && (Terminal(plan, job) in s ==> Terminal(plan, job) in t && t[Terminal(plan, job)] == s[Terminal(plan, job)])
            && (Intent(plan, job) in s && Terminal(plan, job) !in s ==> Intent(plan, job) in t && Terminal(plan, job) !in t)
  {
    CampaignKeeps(map[], [], before);
    var (s, calls) := Campaign(map[], [], before);
    CampaignKeeps(s, calls, between);
  }

  /** A step over a store that already fixes the next row only reads it back. */
  lemma ReplayStep(plan: Plan, execute: Job -> Reply, rows: seq<Row>, r: Run)
    requires Ordered(plan.jobs) && RowsHold(plan, r.store, rows) && |rows| == |plan.jobs|
    requires |r.rows| < |rows| && r.rows == rows[..|r.rows|] && StatesMatch(plan.jobs, r.rows, r.states)
    ensures Step(plan, plan.jobs[|r.rows|], execute, r) == Noted(r, rows[|r.rows|])
  {
    var i := |r.rows|;
    var job := plan.jobs[i];
    assert RowHolds(plan, r.store, rows, i);
    forall d | d in job.dependencies
      ensures d in r.states
    {
      assert FollowsEarlier(plan.jobs[..i], job);
      var e :| 0 <= e < i && plan.jobs[..i][e].id == d;
      assert plan.jobs[e].id == d;
    }
    if rows[i].status == Blocked {
      var e :| 0 <= e < i && plan.jobs[e].id in job.dependencies && rows[e].status != Completed;
      assert r.rows[e] == rows[e];
      assert r.states[plan.jobs[e].id] != Completed;
    }
  }

  lemma {:induction false} ReplayJobs(plan: Plan, execute: Job -> Reply, rows: seq<Row>, r: Run)
    requires Ordered(plan.jobs) && RowsHold(plan, r.store, rows) && |rows| == |plan.jobs| && r.end.Running?
    requires |r.rows| <= |rows| && r.rows == rows[..|r.rows|] && StatesMatch(plan.jobs, r.rows, r.states)
    ensures var s := RunJobs(plan, |r.rows|, execute, r);
            s.end.Finished? && s.rows == rows && s.store == r.store && s.dispatched == r.dispatched
    decreases |rows| - |r.rows|
  {
    hide Step, Ordered, StatesMatch;
    if |r.rows| < |rows| {
      ReplayStep(plan, execute, rows, r);
      var s := Noted(r, rows[|r.rows|]);
      assert RowHolds(plan, r.store, rows, |r.rows|);
      NotedKeepsStates(plan, r, rows[|r.rows|]);
      assert s.rows == rows[..|r.rows| + 1];
      ReplayJobs(plan, execute, rows, s);
    }
  }

  /** Rows once reported stay what the store says, whatever runs next. */
  lemma RowsSurviveRun(plan: Plan, rows: seq<Row>, store: Store, calls: seq<Dispatch>, next: Session)
    requires Ordered(plan.jobs) && Ordered(next.plan.jobs) && Pinned(store) && Once(store, calls)
    requires Registers(store, plan) && RowsHold(plan, store, rows) && |rows| == |plan.jobs|
    ensures var r := RunPlan(next.plan, next.execute, store, next.fuel);
            Registers(r.store, plan) && RowsHold(plan, r.store, rows)
  {
    RunKeeps(next.plan, next.execute, store, calls, next.fuel);
    var r := RunPlan(next.plan, next.execute, store, next.fuel);
    if next.plan == plan {
      ReplayJobs(plan, next.execute, rows, Begin(plan, store, next.fuel));
    } else if next.plan.id != plan.id {
      RowsFrame(plan, store, r.store, rows);
    }
  }

  lemma {:induction false} RowsSurvive(plan: Plan, rows: seq<Row>, store: Store, calls: seq<Dispatch>, sessions: seq<Session>)
    requires Ordered(plan.jobs) && Accepted(sessions) && Pinned(store) && Once(store, calls)
    requires Registers(store, plan) && RowsHold(plan, store, rows) && |rows| == |plan.jobs|
    ensures var (s, _) := Campaign(store, calls, sessions); Registers(s, plan) && RowsHold(plan, s, rows)
    decreases |sessions|
  {
    hide Pinned, Once, RunPlan, RowsHold, Registers;
    if sessions != [] {
      RunKeeps(sessions[0].plan, sessions[0].execute, store, calls, sessions[0].fuel);
      RowsSurviveRun(plan, rows, store, calls, sessions[0]);
      var r := RunPlan(sessions[0].plan, sessions[0].execute, store, sessions[0].fuel);
      RowsSurvive(plan, rows, r.store, calls + r.dispatched, sessions[1..]);
    }
  }

  /** Fixpoint: once a run of a plan has finished, then after any further runs of any plans, every run of it
      finishes with the same rows in plan order, calls nothing, saves nothing, and needs no fuel. Completed,
      failed, ambiguous and blocked rows alike never change. */
  lemma FinishedIsFixed(before: seq<Session>, first: Session, between: seq<Session>, later: Session)
    requires Accepted(before) && Accepted(between) && Ordered(first.plan.jobs) && later.plan == first.plan
    requires RunPlan(first.plan, first.execute, Campaign(map[], [], before).0, first.fuel).end.Finished?
    ensures var r := RunPlan(first.plan, first.execute, Campaign(map[], [], before).0, first.fuel);
            var (store, _) := Campaign(r.store, [], between);
            var again := RunPlan(later.plan, later.execute, store, later.fuel);
            && again.end.Finished? && again.rows == r.rows && again.dispatched == [] && again.store == store
            && |r.rows| == |first.plan.jobs| && forall k :: 0 <= k < |r.rows| ==> r.rows[k].job == first.plan.jobs[k]
  {
    CampaignKeeps(map[], [], before);
    var (store0, calls) := Campaign(map[], [], before);
    RunKeeps(first.plan, first.execute, store0, calls, first.fuel);
    var r := RunPlan(first.plan, first.execute, store0, first.fuel);
    RowsSurvive(first.plan, r.rows, r.store, [], between);
    var (store, _) := Campaign(r.store, [], between);
    ReplayJobs(first.plan, later.execute, r.rows, Begin(later.plan, store, later.fuel));
    forall k | 0 <= k < |r.rows|
      ensures r.rows[k].job == first.plan.jobs[k]
    {
      assert RowHolds(first.plan, r.store, r.rows, k);
    }
  }
}
