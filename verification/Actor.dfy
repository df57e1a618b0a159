/** Recording an actor's dynamic tool workflow. */
module Actor {
  import opened Wrappers
  import opened WorldSession
  import opened Evaluation

  /** A recorder: `failed` closes it. */
  datatype Recorder<+M> = Recorder(session: Session<M>, steps: seq<WorkflowStep>, failed: bool)

  /** One tool call; an infrastructure error is recorded like any other failure, while a spend stop and a reply inventory
      other than one reply raise with nothing recorded. */
  function Recorded<M>(world: World<M>, r: Recorder<M>, a: Action): Recorder<M> {
    var i, before := |r.steps|, r.session.state;
    if r.failed then r
    else match React(world, r.session, a)
    case BudgetExhausted(next) => r.(session := next)
    case Infrastructure(error) => Recorder(r.session, r.steps + [FailureStep(i, a, before, before, error)], true)
    case Failed(error, next) => Recorder(next, r.steps + [FailureStep(i, a, before, next.state, error)], true)
    case Done(next, replies) =>
      if |replies| != 1 then r.(session := next)
      else Recorder(next, r.steps + [ValidStep(i, a, before, replies[0], next.state)], false)
  }

  function RecordedAll<M>(world: World<M>, r: Recorder<M>, actions: seq<Action>): Recorder<M>
    decreases |actions|
  {
    if actions == [] then r else RecordedAll(world, Recorded(world, r, actions[0]), actions[1..])
  }

  class RecordingEnvironment<M> {
    var session: Session<M>
    var steps: seq<WorkflowStep>
    var failed: bool

    constructor (session: Session<M>)
      ensures Now() == Recorder(session, [], false)
    {
      this.session := session;
      steps := [];
      failed := false;
    }

    ghost function Now(): Recorder<M>
      reads this
    {
      Recorder(session, steps, failed)
    }

    /** Captures one consequence; without an observation the call raised. */
    method Execute(world: World<M>, action: Action) returns (observation: Option<Json>)
      modifies this
      ensures Now() == Recorded(world, old(Now()), action)
      ensures observation.Some? <==> |steps| == |old(steps)| + 1 && !failed
      ensures observation.Some? ==> steps[|steps| - 1].reply == observation
    {
      if failed {
        return None;
      }
      var before, i := session.state, |steps|;
      match React(world, session, action) {
        case Done(next, replies) =>
          session := next;
          if |replies| != 1 {
            return None;
          }
          steps := steps + [ValidStep(i, action, before, replies[0], next.state)];
          return Some(replies[0]);
        case BudgetExhausted(next) =>
          session := next;
        case Infrastructure(error) =>
          steps, failed := steps + [FailureStep(i, action, before, before, error)], true;
        case Failed(error, next) =>
          session, steps, failed := next, steps + [FailureStep(i, action, before, next.state, error)], true;
      }
      observation := None;
    }
  }

  /** Valid steps numbered from zero, and a failure exactly when the recorder is closed, as the last one. */
  ghost predicate Chronology<M>(r: Recorder<M>) {
    && (forall k :: 0 <= k < |r.steps| ==> r.steps[k].step == k)
    && (forall k :: 0 <= k < |r.steps| - 1 ==> r.steps[k].status == Valid)
    && (r.failed ==> r.steps != [])
    && (r.steps != [] ==> r.steps[|r.steps| - 1].status == if r.failed then Failure else Valid)
  }

  lemma ChronologyNext<M>(world: World<M>, r: Recorder<M>, a: Action)
    requires Chronology(r)
    ensures Chronology(Recorded(world, r, a)) && r.steps <= Recorded(world, r, a).steps && (r.failed ==> Recorded(world, r, a) == r)
  {
    hide React;
  }

  /** Whatever an actor calls, the record is a chronology its evidence contract accepts, and nothing follows a failure. */
  lemma {:induction false} RecordsStopAtFailure<M>(world: World<M>, r: Recorder<M>, actions: seq<Action>)
    requires Chronology(r)
    ensures var s := RecordedAll(world, r, actions);
            Chronology(s) && Inventory(s.steps) && r.steps <= s.steps && (r.failed ==> s == r)
    decreases |actions|
  {
    if actions != [] {
      var next := Recorded(world, r, actions[0]);
      ChronologyNext(world, r, actions[0]);
      RecordsStopAtFailure(world, next, actions[1..]);
    }
  }

  /** The different-inventory error is unreachable: a call on an open recorder records exactly one step, unless spending stopped. */
  lemma OneStepPerCall<M>(world: World<M>, r: Recorder<M>, a: Action)
    requires !r.failed
    ensures var next := Recorded(world, r, a);
            if React(world, r.session, a).BudgetExhausted? then
              next == Recorder(React(world, r.session, a).next, r.steps, false) && next.session.state == r.session.state
            else |next.steps| == |r.steps| + 1 && next.steps[..|r.steps|] == r.steps && next.steps[|r.steps|].before == Some(r.session.state)
  {
    OneReply(world, r.session, a);
    hide React;
  }

  /** From the first step's state on, each recorded step starts where the one before it ended, and the session is where the last one ended. */
  ghost predicate Linked<M>(r: Recorder<M>, start: Json) {
    && (forall k :: 0 < k < |r.steps| ==> r.steps[k].before == r.steps[k - 1].after)
    && (r.steps != [] ==> r.steps[0].before == Some(start))
    && Some(r.session.state) == if r.steps == [] then Some(start) else r.steps[|r.steps| - 1].after
  }

  lemma LinkedNext<M>(world: World<M>, r: Recorder<M>, a: Action, start: Json)
    requires Linked(r, start)
    ensures Linked(Recorded(world, r, a), start)
  {
    OneReply(world, r.session, a);
    hide React;
  }

  lemma {:induction false} LinkedThroughout<M>(world: World<M>, r: Recorder<M>, actions: seq<Action>, start: Json)
    requires Linked(r, start)
    ensures Linked(RecordedAll(world, r, actions), start)
    decreases |actions|
  {
    hide Recorded, Linked;
    if actions != [] {
      LinkedNext(world, r, actions[0], start);
      LinkedThroughout(world, Recorded(world, r, actions[0]), actions[1..], start);
    }
  }

  /** Whatever an actor calls on a fresh recorder, in any world, its steps chain from the initial state to the session's state. */
  lemma RecordsChain<M>(world: World<M>, start: Session<M>, actions: seq<Action>)
    ensures Linked(RecordedAll(world, Recorder(start, [], false), actions), start.state)
  {
    LinkedThroughout(world, Recorder(start, [], false), actions, start.state);
  }
}
