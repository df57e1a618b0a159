/** One scored workflow: predict every declared action, disclose replies, keep the planned suffix. */
module Evaluation {
  import opened Wrappers
  import opened WorldSession

  datatype Reference = Reference(name: string, arguments: Json, replyAvailable: bool, reply: Json)

  datatype StepStatus = Valid | Failure | Blocked

  datatype WorkflowStep = WorkflowStep(step: nat, name: string, arguments: Json, status: StepStatus,
                                       before: Option<Json>, reply: Option<Json>, after: Option<Json>, errorType: Option<string>)

  datatype Feedback = Receipt(id: Json) | FeedbackFailed(error: string)

  /** How a world simulates and learns: arbitrary, but from nothing except its own past and what it is given. Feedback without a result
      has met a spend stop, which its caller does not catch. */
  datatype World<!M> = World(
    simulate: (Session<M>, Action) -> Simulation<M>,
    observe: (Session<M>, string, Json) -> (Session<M>, Option<Feedback>),
    observeAll: (Session<M>, seq<(string, Json)>) -> (Session<M>, Option<seq<Feedback>>))

  /** Executing one tool call is one durable step. */
  function React<M>(world: World<M>, s: Session<M>, a: Action): Reaction<M> {
    Step(s, [a], world.simulate(s, a))
  }

  datatype Workload = Workload(actions: seq<Action>, references: seq<Reference>, source: Option<string>, deferred: bool)

  datatype StopReason = Completed | Stopped | ResearchUpdateFailure

  datatype Outcome =
    | Refused
    | Raised(error: string)
    | Evaluated(steps: seq<WorkflowStep>, receipts: seq<Json>, feedbackError: Option<string>, reason: StopReason)

  const SPEND_STOP := "SpendLimitReached"

  /** The checks made before anything is dispatched. */
  predicate Admitted(w: Workload, transitions: nat) {
    && transitions == 0
    && DistinctCalls(w.actions)
    && (w.references != [] ==>
          && |w.references| == |w.actions|
          && forall i | 0 <= i < |w.actions| ::
            w.references[i].name == w.actions[i].name && w.references[i].arguments == w.actions[i].arguments)
    && (w.source.Some? ==> |w.references| == |w.actions| && forall i | 0 <= i < |w.references| :: w.references[i].replyAvailable)
  }

  /** The loop's variables. */
  datatype Loop<+M> = Loop(session: Session<M>, steps: seq<WorkflowStep>, receipts: seq<Json>, feedbackError: Option<string>,
                           stopped: bool, raised: Option<string>)

  function ValidStep(i: nat, a: Action, before: Json, reply: Json, after: Json): WorkflowStep {
    WorkflowStep(i, a.name, a.arguments, Valid, Some(before), Some(reply), Some(after), None)
  }

  function FailureStep(i: nat, a: Action, before: Json, after: Json, error: string): WorkflowStep {
    WorkflowStep(i, a.name, a.arguments, Failure, Some(before), None, Some(after), Some(error))
  }

  function BlockedStep(i: nat, a: Action): WorkflowStep {
    WorkflowStep(i, a.name, a.arguments, Blocked, None, None, None, None)
  }

  /** Predicting action `i`, before its reply is disclosed. */
  function Predict<M>(world: World<M>, w: Workload, i: nat, l: Loop<M>): Loop<M>
    requires i < |w.actions|
  {
    var a := w.actions[i];
    var before := l.session.state;
    if l.stopped then l.(steps := l.steps + [BlockedStep(i, a)])
    else match React(world, l.session, a)
    case BudgetExhausted(next) =>
      l.(session := next, stopped := true, steps := l.steps + [FailureStep(i, a, before, next.state, "budget_exhausted")])
    case Infrastructure(error) => l.(raised := Some(error))
    case Failed(error, next) =>
      l.(session := next, stopped := true, steps := l.steps + [FailureStep(i, a, before, next.state, error)])
    case Done(next, replies) =>
      if |replies| != 1 then l.(session := next, raised := Some("ValueError"))
      else l.(session := next, steps := l.steps + [ValidStep(i, a, before, replies[0], next.state)])
  }

  /** Disclosing reply `i` right after its prediction. */
  function Disclose<M>(world: World<M>, w: Workload, i: nat, l: Loop<M>): Loop<M>
    requires i < |w.actions| && (w.source.Some? ==> |w.references| == |w.actions|)
  {
    if l.stopped || l.raised.Some? || w.source.None? || w.deferred then l else
    var (next, feedback) := world.observe(l.session, w.actions[i].callId, w.references[i].reply);
    match feedback
    case None => l.(session := next, raised := Some(SPEND_STOP))
    case Some(Receipt(id)) => l.(session := next, receipts := l.receipts + [id])
    case Some(FeedbackFailed(error)) => l.(session := next, feedbackError := Some(error), stopped := true)
  }

  /** The loop after its first `n` iterations, or where it raised. */
  function Loops<M>(world: World<M>, w: Workload, n: nat, start: Session<M>): Loop<M>
    requires n <= |w.actions| && (w.source.Some? ==> |w.references| == |w.actions|)
  {
    if n == 0 then Loop(start, [], [], None, false, None) else
    var l := Loops(world, w, n - 1, start);
    if l.raised.Some? then l else Disclose(world, w, n - 1, Predict(world, w, n - 1, l))
  }

  function Disclosures(w: Workload): seq<(string, Json)>
    requires |w.references| == |w.actions|
  {
    seq(|w.actions|, i requires 0 <= i < |w.actions| => (w.actions[i].callId, w.references[i].reply))
  }

  function Receipts(rows: seq<Feedback>): seq<Json> {
    if rows == [] then [] else (if rows[0].Receipt? then [rows[0].id] else []) + Receipts(rows[1..])
  }

  function FirstFailure(rows: seq<Feedback>): Option<string> {
    if rows == [] then None else if rows[0].FeedbackFailed? then Some(rows[0].error) else FirstFailure(rows[1..])
  }

  /** Disclosing every reply after the last prediction. */
  function Settle<M>(world: World<M>, w: Workload, l: Loop<M>): Loop<M>
    requires w.source.Some? ==> |w.references| == |w.actions|
  {
    if l.raised.Some? || w.source.None? || !w.deferred || l.stopped then l else
    var (next, rows) := world.observeAll(l.session, Disclosures(w));
    match rows
    case None => l.(session := next, raised := Some("Exception"))
    case Some(settled) => l.(session := next, receipts := Receipts(settled), feedbackError := FirstFailure(settled))
  }

  function Concluded<M>(l: Loop<M>): Outcome {
    if l.raised.Some? then Raised(l.raised.value)
    else Evaluated(l.steps, l.receipts, l.feedbackError,
                   if l.feedbackError.Some? then ResearchUpdateFailure else if l.stopped then Stopped else Completed)
  }

  function Evaluate<M>(world: World<M>, w: Workload, start: Session<M>): Outcome {
    if !Admitted(w, start.transitions) then Refused
    else Concluded(Settle(world, w, Loops(world, w, |w.actions|, start)))
  }

  /** The session object the evaluation mutates. */
  class LiveSession<M> {
    var now: Session<M>

    constructor (start: Session<M>)
      ensures now == start
    {
      now := start;
    }

    /** One slot: predict, record, and disclose right away when feedback is online. */
    method RunSlot(world: World<M>, w: Workload, i: nat, l: Loop<M>) returns (r: Loop<M>)
      requires i < |w.actions| && (w.source.Some? ==> |w.references| == |w.actions|)
      requires l.session == now && l.raised.None?
      modifies this
      ensures r == Disclose(world, w, i, Predict(world, w, i, l)) && r.session == now
    {
      var a, before := w.actions[i], now.state;
      r := l;
      if l.stopped {
        r := l.(steps := l.steps + [BlockedStep(i, a)]);
        return;
      }
      var reaction := React(world, now, a);
      match reaction {
        case Infrastructure(error) =>
          r := l.(raised := Some(error));
        case BudgetExhausted(next) =>
          now := next;
          r := l.(session := now, stopped := true, steps := l.steps + [FailureStep(i, a, before, now.state, "budget_exhausted")]);
        case Failed(error, next) =>
          now := next;
          r := l.(session := now, stopped := true, steps := l.steps + [FailureStep(i, a, before, now.state, error)]);
        case Done(next, replies) =>
          now := next;
          if |replies| != 1 {
            r := l.(session := now, raised := Some("ValueError"));
            return;
          }
          r := l.(session := now, steps := l.steps + [ValidStep(i, a, before, replies[0], now.state)]);
          if w.source.Some? && !w.deferred {
            var (later, feedback) := world.observe(now, a.callId, w.references[i].reply);
            now := later;
            match feedback {
              case None => r := r.(session := now, raised := Some(SPEND_STOP));
              case Some(Receipt(id)) => r := r.(session := now, receipts := r.receipts + [id]);
              case Some(FeedbackFailed(error)) => r := r.(session := now, feedbackError := Some(error), stopped := true);
            }
          }
      }
    }

    /** Runs one workload and keeps every planned slot. */
    method EvaluateWorkflow(world: World<M>, w: Workload) returns (r: Outcome)
      modifies this
      ensures r == Evaluate(world, w, old(now))
      ensures now == if Admitted(w, old(now).transitions) then Settle(world, w, Loops(world, w, |w.actions|, old(now))).session else old(now)
    {
      hide Predict, Disclose;
      if !Admitted(w, now.transitions) {
        return Refused;
      }
      var l := Loop(now, [], [], None, false, None);
      for i := 0 to |w.actions|
        invariant l.session == now && l.raised.None? && Loops(world, w, i, old(now)) == l
      {
        l := RunSlot(world, w, i, l);
        if l.raised.Some? {
          RaisedStays(world, w, i + 1, |w.actions|, old(now));
          return Raised(l.raised.value);
        }
      }
      if w.source.Some? && w.deferred && !l.stopped {
        var (later, rows) := world.observeAll(now, Disclosures(w));
        now := later;
        if rows.None? {
          return Raised("Exception");
        }
        l := l.(session := now, receipts := Receipts(rows.value), feedbackError := FirstFailure(rows.value));
      }
      r := Evaluated(l.steps, l.receipts, l.feedbackError,
                     if l.feedbackError.Some? then ResearchUpdateFailure else if l.stopped then Stopped else Completed);
    }
  }

  lemma {:induction false} RaisedStays<M>(world: World<M>, w: Workload, n: nat, m: nat, start: Session<M>)
    requires n <= m <= |w.actions| && (w.source.Some? ==> |w.references| == |w.actions|)
    requires Loops(world, w, n, start).raised.Some?
    ensures Loops(world, w, m, start) == Loops(world, w, n, start)
  {
    hide Predict, Disclose;
    if n < m { RaisedStays(world, w, n, m - 1, start); }
  }

  /** Two workloads that differ only in what the replies are, and agree on the first `n`. */
  ghost predicate AgreeBelow(v: Workload, w: Workload, n: nat) {
    && v.actions == w.actions && v.source == w.source && v.deferred == w.deferred && |v.references| == |w.references|
    && forall i :: 0 <= i < |v.references| ==>
      && v.references[i].name == w.references[i].name && v.references[i].arguments == w.references[i].arguments
      && v.references[i].replyAvailable == w.references[i].replyAvailable
      && (i < n ==> v.references[i].reply == w.references[i].reply)
  }

  /** A slot depends on the workload through its action and its own reply only. */
  lemma SlotAgrees<M>(world: World<M>, v: Workload, w: Workload, i: nat, l: Loop<M>)
    requires i < |v.actions| && AgreeBelow(v, w, if v.deferred then 0 else i + 1)
    requires v.source.Some? ==> |v.references| == |v.actions|
    ensures Disclose(world, v, i, Predict(world, v, i, l)) == Disclose(world, w, i, Predict(world, w, i, l))
  {
  }

  lemma {:induction false} LoopsAgree<M>(world: World<M>, v: Workload, w: Workload, n: nat, start: Session<M>)
    requires n <= |v.actions| && AgreeBelow(v, w, if v.deferred then 0 else n)
    requires v.source.Some? ==> |v.references| == |v.actions|
    ensures Loops(world, v, n, start) == Loops(world, w, n, start)
  {
    hide Predict, Disclose;
    if n > 0 {
      LoopsAgree(world, v, w, n - 1, start);
      SlotAgrees(world, v, w, n - 1, Loops(world, v, n - 1, start));
    }
  }

  lemma SlotGrows<M>(world: World<M>, w: Workload, i: nat, l: Loop<M>)
    requires i < |w.actions| && (w.source.Some? ==> |w.references| == |w.actions|) && l.raised.None?
    ensures var (seen, r) := (Predict(world, w, i, l), Disclose(world, w, i, Predict(world, w, i, l)));
            && r.steps == seen.steps && l.steps <= r.steps && |r.steps| <= |l.steps| + 1
            && (r.raised.None? ==> |r.steps| == |l.steps| + 1)
            && (seen.raised.Some? ==> r == seen)
  {
  }

  /** Steps already appended never change. */
  lemma {:induction false} StepsGrow<M>(world: World<M>, w: Workload, n: nat, m: nat, start: Session<M>)
    requires n <= m <= |w.actions| && (w.source.Some? ==> |w.references| == |w.actions|)
    ensures Loops(world, w, n, start).steps <= Loops(world, w, m, start).steps
    ensures |Loops(world, w, n, start).steps| <= n
    ensures Loops(world, w, n, start).raised.None? ==> |Loops(world, w, n, start).steps| == n
  {
    hide Predict, Disclose;
    if n < m {
      StepsGrow(world, w, n, m - 1, start);
      var l := Loops(world, w, m - 1, start);
      if l.raised.None? { SlotGrows(world, w, m - 1, l); }
    } else if n > 0 {
      StepsGrow(world, w, n - 1, n - 1, start);
      var l := Loops(world, w, n - 1, start);
      if l.raised.None? { SlotGrows(world, w, n - 1, l); }
    }
  }

  /** The loop once action `i` is predicted and before its reply is disclosed. */
  function Seen<M>(world: World<M>, w: Workload, i: nat, start: Session<M>): Loop<M>
    requires i < |w.actions| && (w.source.Some? ==> |w.references| == |w.actions|)
  {
    var l := Loops(world, w, i, start);
    if l.raised.Some? then l else Predict(world, w, i, l)
  }

  lemma SeenDecides<M>(world: World<M>, w: Workload, i: nat, start: Session<M>)
    requires Admitted(w, start.transitions) && i < |w.actions|
    ensures var (seen, r) := (Seen(world, w, i, start), Evaluate(world, w, start));
            && (seen.raised.Some? ==> r == Raised(seen.raised.value))
            && (r.Evaluated? ==> |r.steps| == |w.actions| && r.steps[..i + 1] == seen.steps)
  {
    hide Predict, Disclose;
    var n := |w.actions|;
    var l := Loops(world, w, i, start);
    if l.raised.None? { SlotGrows(world, w, i, l); }
    if l.raised.Some? {
      RaisedStays(world, w, i, n, start);
    } else if Loops(world, w, i + 1, start).raised.Some? {
      RaisedStays(world, w, i + 1, n, start);
    } else {
      StepsGrow(world, w, i, i, start);
      StepsGrow(world, w, i + 1, n, start);
      StepsGrow(world, w, n, n, start);
      assert Loops(world, w, i + 1, start).steps == Seen(world, w, i, start).steps;
    }
  }

  /** Action `i` was dispatched and met this infrastructure error. */
  ghost predicate Meets<M>(world: World<M>, w: Workload, i: nat, start: Session<M>, error: string)
    requires i < |w.actions| && (w.source.Some? ==> |w.references| == |w.actions|)
  {
    var l := Loops(world, w, i, start);
    l.raised.None? && !l.stopped && React(world, l.session, w.actions[i]) == Infrastructure(error)
  }

  /** Reply `i` was disclosed online and its feedback met a spend stop. */
  ghost predicate SpendsOut<M>(world: World<M>, w: Workload, i: nat, start: Session<M>)
    requires i < |w.actions| && (w.source.Some? ==> |w.references| == |w.actions|)
  {
    var l := Seen(world, w, i, start);
    && l.raised.None? && !l.stopped && w.source.Some? && !w.deferred
    && world.observe(l.session, w.actions[i].callId, w.references[i].reply).1.None?
  }

  /** Why the loop raises at slot `i`. */
  ghost predicate RaisesAt<M>(world: World<M>, w: Workload, i: nat, start: Session<M>, error: string)
    requires i < |w.actions| && (w.source.Some? ==> |w.references| == |w.actions|)
  {
    Meets(world, w, i, start, error) || (SpendsOut(world, w, i, start) && error == SPEND_STOP)
  }

  /** The different-inventory error is unreachable: the loop raises exactly an infrastructure error that one of its actions met, or a
      spend stop inside online feedback. */
  lemma {:induction false} RaisesExactly<M>(world: World<M>, w: Workload, n: nat, start: Session<M>, error: string)
    requires n <= |w.actions| && (w.source.Some? ==> |w.references| == |w.actions|)
    ensures Loops(world, w, n, start).raised == Some(error) <==> exists i: nat :: i < n && RaisesAt(world, w, i, start, error)
  {
    hide RaisesAt, Predict, Disclose;
    if n > 0 {
      RaisesExactly(world, w, n - 1, start, error);
      var l := Loops(world, w, n - 1, start);
      SlotRaises(world, w, n - 1, start, error);
      assert l.raised.Some? ==> Loops(world, w, n, start) == l;
    }
  }

  lemma SlotRaises<M>(world: World<M>, w: Workload, i: nat, start: Session<M>, error: string)
    requires i < |w.actions| && (w.source.Some? ==> |w.references| == |w.actions|)
    ensures var l := Loops(world, w, i, start);
            RaisesAt(world, w, i, start, error) <==>
              l.raised.None? && Disclose(world, w, i, Predict(world, w, i, l)).raised == Some(error)
  {
    OneReply(world, Loops(world, w, i, start).session, w.actions[i]);
    hide React;
  }

  /** A tool call that returns has exactly one reply. */
  lemma OneReply<M>(world: World<M>, s: Session<M>, a: Action)
    ensures CommitsOnce(s, [a], React(world, s, a))
  {
    StepCommitsOnce(s, [a], world.simulate(s, a));
  }

  /** No foresight: what is predicted at step `i` cannot depend on reply `i` or on any later one. Two evaluations
      that agree on the replies before `i` agree on steps 0 to `i`, and raise together if they raise by then. */
  lemma NoForesight<M>(world: World<M>, v: Workload, w: Workload, i: nat, start: Session<M>)
    requires Admitted(v, start.transitions) && i < |v.actions| && AgreeBelow(v, w, i)
    ensures Admitted(w, start.transitions) && Seen(world, v, i, start) == Seen(world, w, i, start)
    ensures var (r, s) := (Evaluate(world, v, start), Evaluate(world, w, start));
            && (r.Evaluated? && s.Evaluated? ==> |r.steps| == |s.steps| == |v.actions| && r.steps[..i + 1] == s.steps[..i + 1])
            && (Seen(world, v, i, start).raised.Some? ==> r == s)
  {
    hide React, Disclose, Settle, Concluded;
    LoopsAgree(world, v, w, i, start);
    SeenDecides(world, v, i, start);
    SeenDecides(world, w, i, start);
  }

  /** Deferred disclosure: the whole step list is independent of every reply. */
  lemma DeferredIsBlind<M>(world: World<M>, v: Workload, w: Workload, start: Session<M>)
    requires v.deferred && AgreeBelow(v, w, 0)
    ensures var (r, s) := (Evaluate(world, v, start), Evaluate(world, w, start));
            && (r.Refused? <==> s.Refused?)
            && (r.Evaluated? && s.Evaluated? ==> r.steps == s.steps)
  {
    if Admitted(v, start.transitions) {
      LoopsAgree(world, v, w, |v.actions|, start);
    }
  }

  /** `n` valid steps, then at most one failure, then only blocked slots, one per action and in order. */
  ghost predicate Shape(actions: seq<Action>, steps: seq<WorkflowStep>, n: nat) {
    && |steps| <= |actions| && n <= |steps|
    && (forall k :: 0 <= k < |steps| ==>
          steps[k].step == k && steps[k].name == actions[k].name && steps[k].arguments == actions[k].arguments)
    && (forall k :: 0 <= k < n ==> steps[k].status == Valid)
    && (n < |steps| ==> steps[n].status == Failure || steps[n].status == Blocked)
    && (forall k :: n < k < |steps| ==> steps[k].status == Blocked)
  }

  /** The valid prefix of the loop's steps has length `n`; it ends early only through a failure or failed feedback. */
  ghost predicate ShapedAt<M>(w: Workload, l: Loop<M>, n: nat) {
    && Shape(w.actions, l.steps, n)
    && (!l.stopped ==> n == |l.steps| && l.feedbackError.None?)
    && (l.stopped && (n == |l.steps| || l.steps[n].status == Blocked) ==> l.feedbackError.Some?)
    && (l.feedbackError.Some? ==> n == |l.steps| || l.steps[n].status == Blocked)
  }

  lemma {:induction false} LoopsShaped<M>(world: World<M>, w: Workload, n: nat, start: Session<M>) returns (k: nat)
    requires n <= |w.actions| && (w.source.Some? ==> |w.references| == |w.actions|)
    ensures ShapedAt(w, Loops(world, w, n, start), k)
  {
    hide Predict, Disclose;
    k := 0;
    if n > 0 {
      k := LoopsShaped(world, w, n - 1, start);
      StepsGrow(world, w, n - 1, n - 1, start);
      var l := Loops(world, w, n - 1, start);
      if l.raised.None? {
        k := StepShaped(world, w, n - 1, l, k);
      }
    }
  }

  lemma StepShaped<M>(world: World<M>, w: Workload, i: nat, l: Loop<M>, k: nat) returns (next: nat)
    requires i < |w.actions| && (w.source.Some? ==> |w.references| == |w.actions|)
    requires ShapedAt(w, l, k) && |l.steps| == i && l.raised.None?
    ensures ShapedAt(w, Disclose(world, w, i, Predict(world, w, i, l)), next)
  {
    var p := Predict(world, w, i, l);
    next := if |p.steps| > i && p.steps[i].status == Valid then k + 1 else k;
    assert ShapedAt(w, p, next);
  }

  /** The evidence contract's own validation of a step list. */
  ghost predicate Inventory(steps: seq<WorkflowStep>) {
    && (forall k :: 0 <= k < |steps| ==> steps[k].step == k)
    && forall j, k :: 0 <= j < k < |steps| && steps[j].status != Valid ==> steps[k].status == Blocked
  }

  /** Every evaluation that returns has one step per action, in the evidence shape, which its contract always
      accepts; it reports completion exactly when every step is valid and no feedback failed. */
  lemma EvidenceShape<M>(world: World<M>, w: Workload, start: Session<M>)
    requires Evaluate(world, w, start).Evaluated?
    ensures var r := Evaluate(world, w, start);
            && (exists n: nat :: Shape(w.actions, r.steps, n)) && |r.steps| == |w.actions| && Inventory(r.steps)
            && (r.reason == Completed <==>
                  r.feedbackError.None? && forall k :: 0 <= k < |r.steps| ==> r.steps[k].status == Valid)
            && (r.reason == ResearchUpdateFailure <==> r.feedbackError.Some?)
  {
    var n := LoopsShaped(world, w, |w.actions|, start);
    StepsGrow(world, w, |w.actions|, |w.actions|, start);
  }

  /** Step `i` records the reaction to action `i` in the session as it was before: blocked after a stop, otherwise what the world did. */
  ghost predicate StepRecords<M>(world: World<M>, w: Workload, i: nat, start: Session<M>, step: WorkflowStep)
    requires i < |w.actions| && (w.source.Some? ==> |w.references| == |w.actions|)
  {
    var (l, a) := (Loops(world, w, i, start), w.actions[i]);
    var before := l.session.state;
    if l.stopped then step == WorkflowStep(i, a.name, a.arguments, Blocked, None, None, None, None)
    else match React(world, l.session, a)
    case Done(next, replies) =>
      |replies| == 1 && step == WorkflowStep(i, a.name, a.arguments, Valid, Some(before), Some(replies[0]), Some(next.state), None)
    case Failed(error, next) =>
      step == WorkflowStep(i, a.name, a.arguments, Failure, Some(before), None, Some(next.state), Some(error))
    case BudgetExhausted(next) =>
      step == WorkflowStep(i, a.name, a.arguments, Failure, Some(before), None, Some(before), Some("budget_exhausted"))
    case Infrastructure(_) => false
  }

  lemma StepsRecord<M>(world: World<M>, w: Workload, i: nat, start: Session<M>)
    requires Evaluate(world, w, start).Evaluated? && i < |w.actions|
    ensures var r := Evaluate(world, w, start); |r.steps| == |w.actions| && StepRecords(world, w, i, start, r.steps[i])
  {
    SeenDecides(world, w, i, start);
    StepsGrow(world, w, i, i, start);
    var (l, r) := (Loops(world, w, i, start), Evaluate(world, w, start));
    OneReply(world, l.session, w.actions[i]);
    assert r.steps[..i + 1][i] == r.steps[i];
    hide React, Disclose, Settle, Concluded, Loops;
  }

  /** An evaluation is refused exactly for a session already used, a repeated call ID, references that do not repeat the actions one by one,
      or disclosure without an available reply for each of them. */
  lemma RefusesExactly<M>(world: World<M>, w: Workload, start: Session<M>)
    ensures Evaluate(world, w, start).Refused?
            <==> || start.transitions > 0
                 || (exists i, j :: 0 <= i < j < |w.actions| && w.actions[i].callId == w.actions[j].callId)
                 || (w.references != [] && (|w.references| != |w.actions| || exists i :: 0 <= i < |w.actions| && Differs(w.references[i], w.actions[i])))
                 || (w.source.Some? && (|w.references| != |w.actions|
                                        || exists i :: 0 <= i < |w.references| && !w.references[i].replyAvailable))
  {
  }

  ghost predicate Differs(reference: Reference, action: Action) { reference.name != action.name || reference.arguments != action.arguments }

  /** An admitted evaluation raises exactly what its loop raises, or an error of settling the deferred feedback. */
  lemma EvaluationRaises<M>(world: World<M>, w: Workload, start: Session<M>, error: string)
    requires Admitted(w, start.transitions)
    ensures var l := Loops(world, w, |w.actions|, start);
            Evaluate(world, w, start) == Raised(error)
            <==> || (exists i: nat :: i < |w.actions| && RaisesAt(world, w, i, start, error))
                 || (l.raised.None? && !l.stopped && w.source.Some? && w.deferred
                     && world.observeAll(l.session, Disclosures(w)).1.None? && error == "Exception")
  {
    RaisesExactly(world, w, |w.actions|, start, error);
    hide RaisesAt, Loops;
  }

  /** The session after an action is what the action's reaction left, and after a disclosure what the feedback left. */
  lemma SessionFollows<M>(world: World<M>, w: Workload, i: nat, start: Session<M>)
    requires i < |w.actions| && (w.source.Some? ==> |w.references| == |w.actions|)
    ensures var (l, seen, after) := (Loops(world, w, i, start), Seen(world, w, i, start), Loops(world, w, i + 1, start));
            && (l.raised.None? && !l.stopped ==>
                  match React(world, l.session, w.actions[i])
                  case Done(next, _) => seen.session == next
                  case Failed(_, next) => seen.session == next
                  case BudgetExhausted(next) => seen.session == next
                  case Infrastructure(_) => seen.session == l.session)
            && (l.raised.Some? || l.stopped ==> seen.session == l.session)
            && after.session == if seen.raised.None? && !seen.stopped && w.source.Some? && !w.deferred
                                then world.observe(seen.session, w.actions[i].callId, w.references[i].reply).0 else seen.session
  {
    OneReply(world, Loops(world, w, i, start).session, w.actions[i]);
    hide React;
  }

  /** After the loop the session changes only by settling deferred feedback. */
  lemma SettledSession<M>(world: World<M>, w: Workload, l: Loop<M>)
    requires w.source.Some? ==> |w.references| == |w.actions|
    ensures Settle(world, w, l).session ==
            if l.raised.None? && !l.stopped && w.source.Some? && w.deferred then world.observeAll(l.session, Disclosures(w)).0 else l.session
  {
  }

  // ----- What feedback reports -----

  /** `ids` are the receipts among these rows, in order: `at[k]` is where the k-th one stands. */
  ghost predicate ReceiptsAt(rows: seq<Feedback>, ids: seq<Json>, at: seq<nat>) {
    && |at| == |ids|
    && (forall k :: 0 <= k < |at| ==> at[k] < |rows| && rows[at[k]] == Receipt(ids[k]))
    && (forall j, k :: 0 <= j < k < |at| ==> at[j] < at[k])
    && forall i :: 0 <= i < |rows| && rows[i].Receipt? ==> i in at
  }

  /** The error of the first row that failed, if any did. */
  ghost predicate FirstError(rows: seq<Feedback>, error: Option<string>) {
    match error
    case None => forall i :: 0 <= i < |rows| ==> rows[i].Receipt?
    case Some(e) => exists i :: 0 <= i < |rows| && rows[i] == FeedbackFailed(e) && forall j :: 0 <= j < i ==> rows[j].Receipt?
  }

  lemma {:induction false} ReceiptsInOrder(rows: seq<Feedback>) returns (at: seq<nat>)
    ensures ReceiptsAt(rows, Receipts(rows), at)
  {
    at := [];
    if rows != [] {
      var rest := ReceiptsInOrder(rows[1..]);
      var (first, moved) := (rows[0], seq(|rest|, k requires 0 <= k < |rest| => rest[k] + 1));
      at := if first.Receipt? then [0] + moved else moved;
      ReceiptsMove(rows, Receipts(rows[1..]), rest, moved);
      if first.Receipt? { ReceiptFirst(rows, Receipts(rows[1..]), moved); }
    }
  }

  /** All receipts among these rows but the first. */
  ghost predicate LaterReceipts(rows: seq<Feedback>, ids: seq<Json>, at: seq<nat>) {
    && |at| == |ids|
    && (forall k :: 0 <= k < |at| ==> 0 < at[k] < |rows| && rows[at[k]] == Receipt(ids[k]))
    && (forall j, k :: 0 <= j < k < |at| ==> at[j] < at[k])
    && forall i :: 0 < i < |rows| && rows[i].Receipt? ==> i in at
  }

  lemma ReceiptsMove(rows: seq<Feedback>, ids: seq<Json>, at: seq<nat>, moved: seq<nat>)
    requires rows != [] && ReceiptsAt(rows[1..], ids, at) && |moved| == |at| && forall k :: 0 <= k < |at| ==> moved[k] == at[k] + 1
    ensures LaterReceipts(rows, ids, moved)
  {
    forall i | 0 < i < |rows| && rows[i].Receipt? ensures i in moved {
      assert rows[1..][i - 1].Receipt?;
      var k :| 0 <= k < |at| && at[k] == i - 1;
      assert moved[k] == i;
    }
  }

  lemma ReceiptFirst(rows: seq<Feedback>, ids: seq<Json>, at: seq<nat>)
    requires rows != [] && LaterReceipts(rows, ids, at) && rows[0].Receipt?
    ensures ReceiptsAt(rows, [rows[0].id] + ids, [0] + at)
  {
    forall i | 0 <= i < |rows| && rows[i].Receipt? ensures i in [0] + at {
      if i > 0 { assert i in at; }
    }
  }

  lemma {:induction false} FirstFailureIsFirst(rows: seq<Feedback>)
    ensures FirstError(rows, FirstFailure(rows))
  {
    if rows != [] && rows[0].Receipt? {
      var rest := rows[1..];
      FirstFailureIsFirst(rest);
      var error := FirstFailure(rest);
      if error.Some? {
        var i :| 0 <= i < |rest| && rest[i] == FeedbackFailed(error.value) && forall j :: 0 <= j < i ==> rest[j].Receipt?;
        assert rows[i + 1] == rest[i];
        forall j | 0 <= j < i + 1 ensures rows[j].Receipt? { if j > 0 { assert rest[j - 1].Receipt?; } }
      } else {
        forall i | 0 <= i < |rows| ensures rows[i].Receipt? { if i > 0 { assert rest[i - 1].Receipt?; } }
      }
    } else if rows != [] {
      assert rows[0] == FeedbackFailed(rows[0].error);
    }
  }

  /** Deferred feedback: a stopped evaluation settles nothing; any other reports the receipts of the settled rows in order, and the error of
      the first that failed. */
  lemma DeferredFeedback<M>(world: World<M>, w: Workload, start: Session<M>)
    requires Evaluate(world, w, start).Evaluated? && w.source.Some? && w.deferred
    ensures var (r, l) := (Evaluate(world, w, start), Loops(world, w, |w.actions|, start));
            if l.stopped then r.receipts == [] && r.feedbackError.None? else
              var rows := world.observeAll(l.session, Disclosures(w)).1;
              rows.Some? && FirstError(rows.value, r.feedbackError) && exists at :: ReceiptsAt(rows.value, r.receipts, at)
  {
    DisclosedNothing(world, w, |w.actions|, start);
    var l := Loops(world, w, |w.actions|, start);
    if !l.stopped {
      var rows := world.observeAll(l.session, Disclosures(w)).1;
      if rows.Some? {
        FirstFailureIsFirst(rows.value);
        var at := ReceiptsInOrder(rows.value);
      }
    }
  }

  lemma {:induction false} DisclosedNothing<M>(world: World<M>, w: Workload, n: nat, start: Session<M>)
    requires n <= |w.actions| && (w.source.Some? ==> |w.references| == |w.actions|) && (w.source.None? || w.deferred)
    ensures var l := Loops(world, w, n, start); l.receipts == [] && l.feedbackError.None?
  {
    hide React;
    if n > 0 { DisclosedNothing(world, w, n - 1, start); }
  }

  /** What disclosing reply `i` right after its prediction brings. */
  ghost function Observed<M>(world: World<M>, w: Workload, i: nat, start: Session<M>): Option<Feedback>
    requires i < |w.actions| && |w.references| == |w.actions|
    requires w.source.Some?
  {
    world.observe(Seen(world, w, i, start).session, w.actions[i].callId, w.references[i].reply).1
  }

  /** Each of the `valid` predictions was followed by its disclosure: all but a failing last one brought these receipts, in order. */
  ghost predicate Received<M>(world: World<M>, w: Workload, start: Session<M>, receipts: seq<Json>, error: Option<string>, valid: nat)
    requires |w.references| == |w.actions| && w.source.Some? && valid <= |w.actions|
  {
    && valid == |receipts| + (if error.Some? then 1 else 0)
    && (forall i :: 0 <= i < |receipts| ==> Observed(world, w, i, start) == Some(Receipt(receipts[i])))
    && (error.Some? ==> Observed(world, w, |receipts|, start) == Some(FeedbackFailed(error.value)))
  }

  lemma {:induction false} LoopsReceive<M>(world: World<M>, w: Workload, n: nat, start: Session<M>) returns (k: nat)
    requires n <= |w.actions| && |w.references| == |w.actions| && w.source.Some? && !w.deferred
    ensures var l := Loops(world, w, n, start);
            ShapedAt(w, l, k) && |l.steps| <= n && (l.raised.None? ==> Received(world, w, start, l.receipts, l.feedbackError, k))
  {
    hide Predict, Disclose;
    k := 0;
    if n > 0 {
      k := LoopsReceive(world, w, n - 1, start);
      StepsGrow(world, w, n - 1, n - 1, start);
      var l := Loops(world, w, n - 1, start);
      if l.raised.None? {
        var next := StepShaped(world, w, n - 1, l, k);
        StepReceives(world, w, n - 1, l, k, next, start);
        SlotGrows(world, w, n - 1, l);
        k := next;
      }
    }
  }

  lemma StepReceives<M>(world: World<M>, w: Workload, i: nat, l: Loop<M>, k: nat, next: nat, start: Session<M>)
    requires i < |w.actions| && |w.references| == |w.actions| && w.source.Some? && !w.deferred
    requires l == Loops(world, w, i, start) && l.raised.None? && |l.steps| == i
    requires ShapedAt(w, l, k) && Received(world, w, start, l.receipts, l.feedbackError, k)
    requires ShapedAt(w, Disclose(world, w, i, Predict(world, w, i, l)), next)
    ensures var r := Disclose(world, w, i, Predict(world, w, i, l));
            r.raised.None? ==> Received(world, w, start, r.receipts, r.feedbackError, next)
  {
    hide React, Loops;
  }

  /** Online feedback: the receipts are those of the valid steps in order; a failed disclosure is that of the last valid step, and its error
      is the one reported. */
  lemma OnlineFeedback<M>(world: World<M>, w: Workload, start: Session<M>)
    requires Evaluate(world, w, start).Evaluated? && w.source.Some? && !w.deferred
    ensures var r := Evaluate(world, w, start);
            exists valid: nat :: Shape(w.actions, r.steps, valid) && Received(world, w, start, r.receipts, r.feedbackError, valid)
  {
    var k := LoopsReceive(world, w, |w.actions|, start);
  }

  /** Without a feedback source nothing is disclosed. */
  lemma NoFeedback<M>(world: World<M>, w: Workload, start: Session<M>)
    requires Evaluate(world, w, start).Evaluated? && w.source.None?
    ensures var r := Evaluate(world, w, start); r.receipts == [] && r.feedbackError.None?
  {
    DisclosedNothing(world, w, |w.actions|, start);
  }

  /** Feedback that leaves the public state alone. */
  ghost predicate NoRescue<M(!new)>(world: World<M>) {
    forall s, c, j :: world.observe(s, c, j).0.state == s.state
  }

  ghost predicate Chained<M>(l: Loop<M>, start: Json) {
    && (forall k :: 0 < k < |l.steps| && l.steps[k].status != Blocked ==> l.steps[k].before == l.steps[k - 1].after)
    && (|l.steps| > 0 && l.steps[0].status != Blocked ==> l.steps[0].before == Some(start))
    && (!l.stopped && l.raised.None? ==>
          Some(l.session.state) == if l.steps == [] then Some(start) else l.steps[|l.steps| - 1].after)
  }

  lemma StepChained<M(!new)>(world: World<M>, w: Workload, i: nat, l: Loop<M>, start: Json)
    requires NoRescue(world) && i < |w.actions| && (w.source.Some? ==> |w.references| == |w.actions|)
    requires Chained(l, start) && l.raised.None?
    ensures Chained(Disclose(world, w, i, Predict(world, w, i, l)), start)
  {
    var p := Predict(world, w, i, l);
    assert Chained(p, start);
  }

  lemma {:induction false} LoopsChain<M(!new)>(world: World<M>, w: Workload, n: nat, start: Session<M>)
    requires NoRescue(world) && n <= |w.actions| && (w.source.Some? ==> |w.references| == |w.actions|)
    ensures Chained(Loops(world, w, n, start), start.state)
  {
    if n > 0 {
      hide Chained, Predict, Disclose, NoRescue;
      LoopsChain(world, w, n - 1, start);
      var l := Loops(world, w, n - 1, start);
      if l.raised.None? {
        StepChained(world, w, n - 1, l, start.state);
      }
    }
  }

  /** Without state rescue, each executed step starts where the one before it ended. */
  lemma StepsChain<M(!new)>(world: World<M>, w: Workload, start: Session<M>)
    requires NoRescue(world) && Evaluate(world, w, start).Evaluated?
    ensures var steps := Evaluate(world, w, start).steps;
            && (forall k :: 0 < k < |steps| && steps[k].status != Blocked ==> steps[k].before == steps[k - 1].after)
            && (|steps| > 0 && steps[0].status != Blocked ==> steps[0].before == Some(start.state))
  {
    LoopsChain(world, w, |w.actions|, start);
  }
}
