/** One durable step of a simulated world: prepare, ask, refuse and ask again, commit at most once. */
module WorldSession {
  import opened Wrappers

  type Json = string

  datatype Action = Action(callId: string, name: string, arguments: Json)

  /** A session's public state, its committed transitions, and everything else the world may depend on. */
  datatype Session<+M> = Session(state: Json, transitions: nat, mind: M)

  datatype Observed = Observed(callId: string, reply: Json)

  /** What the model proposes; `next` is the state its effect gives, when effect and state are accepted, and `fault` what the engine raises
      when it refuses the proposal. */
  datatype Proposal = Proposal(wellFormed: bool, observations: seq<Observed>, next: Option<Json>, fault: string)

  /** A spend stop is not an ordinary exception, and infrastructure errors are told apart by their callers. */
  datatype Failure = SpendStop | Transport(error: string) | Ordinary(error: string)

  datatype Answer = Threw(failure: Failure) | Proposed(proposal: Proposal)

  datatype Commit = Landed | NotLanded(error: string) | LandedThenRaised(error: string)

  /** What one step meets: a refusal before dispatch, an answer to each ask, the commit, and the mind it leaves. */
  datatype Simulation<+M> = Simulation(refusal: Option<Failure>, answers: seq<Answer>, maximumReasks: nat, commit: Commit, mind: M)

  datatype Reaction<+M> =
    | Done(next: Session<M>, replies: seq<Json>)
    | BudgetExhausted(next: Session<M>)
    | Infrastructure(error: string)
    | Failed(error: string, next: Session<M>)

  function CallIds(actions: seq<Action>): (ids: seq<string>)
    ensures |ids| == |actions|
  {
    seq(|actions|, i requires 0 <= i < |actions| => actions[i].callId)
  }

  function ObservedIds(observations: seq<Observed>): (ids: seq<string>)
    ensures |ids| == |observations|
  {
    seq(|observations|, i requires 0 <= i < |observations| => observations[i].callId)
  }

  function Replies(observations: seq<Observed>): (replies: seq<Json>)
    ensures |replies| == |observations|
  {
    seq(|observations|, i requires 0 <= i < |observations| => observations[i].reply)
  }

  predicate DistinctCalls(actions: seq<Action>) {
    forall i, j :: 0 <= i < j < |actions| ==> actions[i].callId != actions[j].callId
  }

  /** Every engine accepts only an observation for each action, in order. */
  predicate Parses(proposal: Proposal, actions: seq<Action>) {
    proposal.wellFormed && ObservedIds(proposal.observations) == CallIds(actions) && proposal.next.Some?
  }

  function Raise<M>(failure: Failure, next: Session<M>): Reaction<M> {
    match failure
    case SpendStop => BudgetExhausted(next)
    case Transport(error) => Infrastructure(error)
    case Ordinary(error) => Failed(error, next)
  }

  function CommitStep<M>(s: Session<M>, sim: Simulation<M>, state: Json, replies: seq<Json>): Reaction<M> {
    match sim.commit
    case Landed => Done(Session(state, s.transitions + 1, sim.mind), replies)
    case NotLanded(error) => Failed(error, s.(mind := sim.mind))
    case LandedThenRaised(error) => Failed(error, Session(state, s.transitions + 1, sim.mind))
  }

  /** Asks until a proposal parses or the re-asks are used up; an ask the world has no answer for fails. */
  function Ask<M>(s: Session<M>, actions: seq<Action>, sim: Simulation<M>, asked: nat): Reaction<M>
    decreases |sim.answers| - asked
  {
    if asked >= |sim.answers| then Failed("Exception", s.(mind := sim.mind))
    else match sim.answers[asked]
    case Threw(failure) => Raise(failure, s.(mind := sim.mind))
    case Proposed(proposal) =>
      if Parses(proposal, actions) then CommitStep(s, sim, proposal.next.value, Replies(proposal.observations))
      else if asked >= sim.maximumReasks then Failed(proposal.fault, s.(mind := sim.mind))
      else Ask(s, actions, sim, asked + 1)
  }

  function Step<M>(s: Session<M>, actions: seq<Action>, sim: Simulation<M>): Reaction<M> {
    if actions == [] || !DistinctCalls(actions) then Failed("ValueError", s)
    else if sim.refusal.Some? then Raise(sim.refusal.value, s.(mind := sim.mind))
    else Ask(s, actions, sim, 0)
  }

  ghost predicate CommitsOnce<M>(s: Session<M>, actions: seq<Action>, r: Reaction<M>) {
    match r
    case Done(next, replies) => |replies| == |actions| && next.transitions == s.transitions + 1
    case BudgetExhausted(next) => next.state == s.state && next.transitions == s.transitions
    case Infrastructure(_) => true
    case Failed(_, next) => next.transitions == s.transitions + 1 || (next.state == s.state && next.transitions == s.transitions)
  }

  lemma {:induction false} AskCommitsOnce<M>(s: Session<M>, actions: seq<Action>, sim: Simulation<M>, asked: nat)
    ensures CommitsOnce(s, actions, Ask(s, actions, sim, asked))
    decreases |sim.answers| - asked
  {
    if asked < |sim.answers| && sim.answers[asked].Proposed? && !Parses(sim.answers[asked].proposal, actions) {
      AskCommitsOnce(s, actions, sim, asked + 1);
    }
    if asked < |sim.answers| && sim.answers[asked].Proposed? && Parses(sim.answers[asked].proposal, actions) {
      assert |ObservedIds(sim.answers[asked].proposal.observations)| == |CallIds(actions)|;
    }
  }

  /** A step that returns has one reply for each action and one new transition; one that raises commits at most once, and changes the
      state only if it did. */
  lemma StepCommitsOnce<M>(s: Session<M>, actions: seq<Action>, sim: Simulation<M>)
    ensures CommitsOnce(s, actions, Step(s, actions, sim))
  {
    AskCommitsOnce(s, actions, sim, 0);
  }

  ghost predicate AllRefused(actions: seq<Action>, answers: seq<Answer>) {
    forall j :: 0 <= j < |answers| ==> answers[j].Proposed? && !Parses(answers[j].proposal, actions)
  }

  /** Ask `k` is made: every earlier answer was a refused proposal, and re-asks remained. */
  ghost predicate Asked(actions: seq<Action>, sim: Simulation, k: nat) {
    k < |sim.answers| && k <= sim.maximumReasks && AllRefused(actions, sim.answers[..k])
  }

  /** The session with nothing committed. */
  ghost function Untouched<M>(s: Session<M>, sim: Simulation<M>): Session<M> { Session(s.state, s.transitions, sim.mind) }

  /** The step raised this failure, with nothing committed. */
  ghost predicate Raises<M>(s: Session<M>, sim: Simulation<M>, failure: Failure, r: Reaction<M>) {
    match failure
    case SpendStop => r == BudgetExhausted(Untouched(s, sim))
    case Transport(error) => r == Infrastructure(error)
    case Ordinary(error) => r == Failed(error, Untouched(s, sim))
  }

  /** How ask `k` ends the step: its answer threw, parsed and was committed or not, or was refused with no re-ask left. */
  ghost predicate EndsAt<M>(s: Session<M>, actions: seq<Action>, sim: Simulation<M>, k: nat, r: Reaction<M>) {
    && Asked(actions, sim, k)
    && match sim.answers[k]
       case Threw(failure) => Raises(s, sim, failure, r)
       case Proposed(p) =>
         if !Parses(p, actions) then k == sim.maximumReasks && r == Failed(p.fault, Untouched(s, sim))
         else match sim.commit
              case NotLanded(error) => r == Failed(error, Untouched(s, sim))
              case LandedThenRaised(error) => p.next.Some? && r == Failed(error, Session(p.next.value, s.transitions + 1, sim.mind))
              case Landed =>
                && p.next.Some? && r.Done? && r.next == Session(p.next.value, s.transitions + 1, sim.mind)
                && |r.replies| == |actions| && |p.observations| == |actions|
                && forall i :: 0 <= i < |actions| ==> p.observations[i] == Observed(actions[i].callId, r.replies[i])
  }

  lemma {:induction false} AskEnds<M>(s: Session<M>, actions: seq<Action>, sim: Simulation<M>, asked: nat) returns (k: nat)
    requires asked <= |sim.answers| && asked <= sim.maximumReasks && AllRefused(actions, sim.answers[..asked])
    ensures var r := Ask(s, actions, sim, asked);
            EndsAt(s, actions, sim, k, r) || (r == Failed("Exception", Untouched(s, sim)) && AllRefused(actions, sim.answers))
    decreases |sim.answers| - asked
  {
    k := asked;
    assert sim.answers[..|sim.answers|] == sim.answers;
    if asked < |sim.answers| && sim.answers[asked].Proposed? {
      var p := sim.answers[asked].proposal;
      if Parses(p, actions) {
        assert |ObservedIds(p.observations)| == |CallIds(actions)|;
        forall i | 0 <= i < |actions| ensures p.observations[i] == Observed(actions[i].callId, Replies(p.observations)[i]) {
          assert ObservedIds(p.observations)[i] == CallIds(actions)[i];
        }
      } else if asked < sim.maximumReasks {
        k := AskEnds(s, actions, sim, asked + 1);
      }
    }
  }

  /** A step over no actions, or over repeated call IDs, fails untouched; a refusal before dispatch is raised; every other step ends at the
      first ask whose answer throws or parses, or that has no re-ask left, with one reply for each call ID in order. */
  lemma StepEnds<M>(s: Session<M>, actions: seq<Action>, sim: Simulation<M>)
    ensures var r := Step(s, actions, sim);
            if actions == [] || !DistinctCalls(actions) then r == Failed("ValueError", s)
            else if sim.refusal.Some? then Raises(s, sim, sim.refusal.value, r)
            else (exists k :: EndsAt(s, actions, sim, k, r))
                 || (r == Failed("Exception", Untouched(s, sim)) && AllRefused(actions, sim.answers))
  {
    if actions != [] && DistinctCalls(actions) && sim.refusal.None? {
      var k := AskEnds(s, actions, sim, 0);
    }
  }
}
