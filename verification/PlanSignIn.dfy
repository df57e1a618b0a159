/** Plan sign-ins under one connection name: adds, removals and refreshes interleaved one store operation at a time. */
module PlanSignIn {
  import opened Wrappers

  datatype Config = Config(revision: nat, plan: bool)

  /** Token pairs. Every sign-in and every refresh grant issues a pair of its own. */
  datatype Pair = Earlier(n: nat) | Added(owner: nat) | Rotated(owner: nat)

  datatype Record = Absent | ApiKey | SignIn(pair: Pair, binding: Config)

  datatype End = Refused | Activated | Undone | UndoRaised | Removed | NotRemoved | Refreshed

  /** Where each command stands; what it has read so far is what it will act on. A refresh serves settings of its own, active or not. */
  datatype Command =
    | AddStart(config: Config, replace: bool)
    | AddKnows(config: Config, replace: bool, existing: Option<Config>)
    | AddRead(config: Config, replace: bool, existing: Option<Config>, previous: Option<Pair>)
    | AddStored(config: Config, replace: bool, existing: Option<Config>, previous: Option<Pair>)
    | AddFailing(config: Config, replace: bool, existing: Option<Config>, previous: Option<Pair>)
    | RemoveStart
    | RemoveWaiting(isPlan: bool)
    | RemoveLocked(isPlan: bool)
    | RemoveRead(signedIn: Option<Pair>, since: nat)
    | RemoveDisabled(signedIn: Option<Pair>, since: nat, changed: bool)
    | RefreshStart(serving: Config)
    | RefreshLocked(serving: Config)
    | RefreshRead(stored: Pair)
    | Finished(end: End)

  /** `used` holds the settings that have been active: the name has a row exactly when there are any. `addWrites` counts the writes that
      adds and their undos have landed. */
  datatype State = State(record: Record, active: Option<Config>, used: set<Config>, lock: Option<nat>, addWrites: nat,
                         commands: map<nat, Command>)

  /** One command's next operation; `fails` when it raises or, for a refresh, when no rotation is due. A failing transaction may have
      `landed`: COMMIT went through and something after it raised. */
  datatype Move = Move(id: nat, fails: bool, landed: bool)

  function SignedIn(record: Record): Option<Pair> { if record.SignIn? then Some(record.pair) else None }

  /** Swaps the record only while it still holds the expected pair. */
  function ReplaceIf(record: Record, expected: Pair, replacement: Option<Pair>, binding: Option<Config>): Record {
    if SignedIn(record) != Some(expected) then record
    else if replacement.None? then Absent
    else SignIn(replacement.value, if binding.Some? then binding.value else record.binding)
  }

  function Become(s: State, id: nat, command: Command): State { s.(commands := s.commands[id := command]) }

  function Unlock(s: State, id: nat, end: End): State { Become(s, id, Finished(end)).(lock := None) }

  /** Activating: settings already active are left alone, others need `replace` and must be new; a name whose row is inactive is refused. */
  predicate Allowed(s: State, config: Config, replace: bool) {
    if s.active.None? then s.used == {} else s.active.value == config || (replace && config !in s.used)
  }

  function Activate(s: State, config: Config): State { s.(active := Some(config), used := s.used + {config}) }

  function AddStep(s: State, command: Command, move: Move): State
    requires IsAdd(command)
  {
    var (id, fails) := (move.id, move.fails);
    match command
    case AddStart(config, replace) =>
      if fails then Become(s, id, Finished(Refused)) else Become(s, id, AddKnows(config, replace, s.active))
    case AddKnows(config, replace, existing) =>
      if (existing.Some? && existing.value != config && !replace) || fails || s.record.ApiKey? then Become(s, id, Finished(Refused))
      else Become(s, id, AddRead(config, replace, existing, SignedIn(s.record)))
    case AddRead(config, replace, existing, previous) =>
      if fails then Become(s, id, Finished(Refused))
      else Become(s, id, AddStored(config, replace, existing, previous)).(record := SignIn(Added(id), config), addWrites := s.addWrites + 1)
    case AddStored(config, replace, existing, previous) =>
      var allowed := Allowed(s, config, replace);
      var t := if allowed && (!fails || move.landed) then Activate(s, config) else s;
      Become(t, id, if fails || !allowed then AddFailing(config, replace, existing, previous) else Finished(Activated))
    case AddFailing(config, replace, existing, previous) =>
      if fails then Become(s, id, Finished(UndoRaised)) else
      var replacement := if existing.Some? then previous else None;
      var binding := if existing.Some? && previous.Some? then existing else None;
      Become(s, id, Finished(Undone)).(record := ReplaceIf(s.record, Added(id), replacement, binding), addWrites := s.addWrites + 1)
  }

  function RemoveStep(s: State, command: Command, move: Move): State
    requires IsRemoval(command)
  {
    var (id, fails) := (move.id, move.fails);
    match command
    case RemoveStart =>
      if fails then Become(s, id, Finished(NotRemoved))
      else Become(s, id, RemoveWaiting(s.active.Some? && s.active.value.plan))
    case RemoveWaiting(isPlan) =>
      if s.lock.None? then Become(s, id, RemoveLocked(isPlan)).(lock := Some(id))
      else if fails then Become(s, id, Finished(NotRemoved)) else s
    case RemoveLocked(isPlan) =>
      if fails && isPlan then Unlock(s, id, NotRemoved)
      else Become(s, id, RemoveRead(if fails then None else SignedIn(s.record), s.addWrites))
    case RemoveRead(signedIn, since) =>
      if fails then Unlock(s, id, NotRemoved).(active := if move.landed then None else s.active)
      else Become(s, id, RemoveDisabled(signedIn, since, s.active.Some?)).(active := None)
    case RemoveDisabled(signedIn, since, changed) =>
      if changed && signedIn.Some? then
        if fails then Unlock(s, id, NotRemoved)
        else Unlock(s, id, Removed).(record := ReplaceIf(s.record, signedIn.value, None, None))
      else Unlock(s, id, Removed)
  }

  function RefreshStep(s: State, command: Command, move: Move): State
    requires IsRefresh(command)
  {
    var (id, fails) := (move.id, move.fails);
    match command
    case RefreshStart(serving) =>
      if s.lock.None? then Become(s, id, RefreshLocked(serving)).(lock := Some(id))
      else if fails then Become(s, id, Finished(Refused)) else s
    case RefreshLocked(serving) =>
      if fails || !s.record.SignIn? || s.record.binding != serving then Unlock(s, id, Refused)
      else Become(s, id, RefreshRead(s.record.pair))
    case RefreshRead(stored) =>
      if fails then Unlock(s, id, Refreshed)
      else Unlock(s, id, Refreshed).(record := ReplaceIf(s.record, stored, Some(Rotated(id)), None))
  }

  predicate IsAdd(command: Command) {
    command.AddStart? || command.AddKnows? || command.AddRead? || command.AddStored? || command.AddFailing?
  }

  predicate IsRemoval(command: Command) {
    command.RemoveStart? || command.RemoveWaiting? || command.RemoveLocked? || command.RemoveRead? || command.RemoveDisabled?
  }

  predicate IsRefresh(command: Command) { command.RefreshStart? || command.RefreshLocked? || command.RefreshRead? }

  function Step(s: State, move: Move): State {
    if move.id !in s.commands then s else
    var command := s.commands[move.id];
    if IsAdd(command) then AddStep(s, command, move)
    else if IsRemoval(command) then RemoveStep(s, command, move)
    else if IsRefresh(command) then RefreshStep(s, command, move)
    else s
  }

  function Run(s: State, moves: seq<Move>): State
    decreases |moves|
  {
    if moves == [] then s else Run(Step(s, moves[0]), moves[1..])
  }

  /** Commands wait at their start, and no pair in the file is theirs yet. */
  ghost predicate Initial(s: State) {
    && s.lock.None? && (s.active.Some? ==> s.active.value in s.used)
    && (s.record.SignIn? ==> s.record.pair.Earlier?)
    && forall id :: id in s.commands ==>
         (s.commands[id].AddStart? && s.commands[id].config.plan) || s.commands[id].RemoveStart? || s.commands[id].RefreshStart?
  }

  // ----- Every reachable state -----

  predicate Locked(command: Command) {
    command.RemoveLocked? || command.RemoveRead? || command.RemoveDisabled? || command.RefreshLocked? || command.RefreshRead?
  }

  ghost predicate LockHeldOnce(s: State) {
    forall id :: id in s.commands && Locked(s.commands[id]) ==> s.lock == Some(id)
  }

  /** The pair a command has in hand. */
  function Held(command: Command): Option<Pair> {
    match command
    case AddRead(_, _, _, previous) => previous
    case AddStored(_, _, _, previous) => previous
    case AddFailing(_, _, _, previous) => previous
    case RemoveRead(signedIn, _) => signedIn
    case RemoveDisabled(signedIn, _, _) => signedIn
    case RefreshRead(stored) => Some(stored)
    case _ => None
  }

  /** The command this pair came from has already written it. */
  ghost predicate Written(s: State, pair: Pair) {
    match pair
    case Earlier(_) => true
    case Added(owner) => owner in s.commands && (s.commands[owner].AddStored? || s.commands[owner].AddFailing? || s.commands[owner].Finished?)
    case Rotated(owner) => owner in s.commands && s.commands[owner].Finished?
  }

  ghost predicate Provenance(s: State) {
    && (s.record.SignIn? ==> Written(s, s.record.pair))
    && forall id :: id in s.commands && Held(s.commands[id]).Some? ==> Written(s, Held(s.commands[id]).value)
  }

  /** What an add has in hand to restore is never the pair it wrote itself. */
  ghost predicate RestoresOthers(s: State) {
    forall id :: id in s.commands && (s.commands[id].AddRead? || s.commands[id].AddStored? || s.commands[id].AddFailing?)
                 ==> s.commands[id].previous != Some(Added(id))
  }

  /** While a removal is between its read and its delete, only adds can have changed the pair it read. */
  ghost predicate RemovalSeesFile(s: State) {
    forall id :: id in s.commands && (s.commands[id].RemoveRead? || s.commands[id].RemoveDisabled?)
                 && s.commands[id].signedIn.Some? && s.commands[id].since == s.addWrites
                 ==> SignedIn(s.record) == s.commands[id].signedIn
  }

  ghost predicate RemovalClock(s: State) {
    forall id :: id in s.commands && (s.commands[id].RemoveRead? || s.commands[id].RemoveDisabled?) ==> s.commands[id].since <= s.addWrites
  }

  /** The name has a row, and it is inactive. */
  predicate Disabled(s: State) { s.active.None? && s.used != {} }

  /** Active settings are used settings, and a removal that disabled the connection deletes only under an inactive row. */
  ghost predicate RowKept(s: State) {
    && (s.active.Some? ==> s.active.value in s.used)
    && forall id :: id in s.commands && s.commands[id].RemoveDisabled? && s.commands[id].changed ==> Disabled(s)
  }

  ghost predicate Inv(s: State) {
    LockHeldOnce(s) && Provenance(s) && RestoresOthers(s) && RemovalSeesFile(s) && RemovalClock(s) && RowKept(s)
  }

  lemma AddKeepsLock(s: State, move: Move)
    requires LockHeldOnce(s) && move.id in s.commands && IsAdd(s.commands[move.id])
    ensures LockHeldOnce(AddStep(s, s.commands[move.id], move))
  {
    hide ReplaceIf, SignedIn, Allowed;
  }

  lemma StepKeepsLock(s: State, move: Move)
    requires LockHeldOnce(s)
    ensures LockHeldOnce(Step(s, move))
  {
    hide AddStep, ReplaceIf, SignedIn;
    if move.id in s.commands && IsAdd(s.commands[move.id]) { AddKeepsLock(s, move); }
  }

  lemma StepKeepsWritten(s: State, move: Move, pair: Pair)
    requires Written(s, pair)
    ensures Written(Step(s, move), pair)
  {
  }

  /** A step takes pairs only from the file, and puts there only what it had in hand or its own pair. */
  ghost predicate PairsKept(s: State, t: State, id: nat)
    requires id in s.commands
  {
    var held := Held(s.commands[id]);
    && t.commands.Keys == s.commands.Keys
    && (forall other :: other in s.commands && other != id ==> t.commands[other] == s.commands[other])
    && Held(t.commands[id]) in {held, None, SignedIn(s.record)}
    && (SignedIn(t.record) in {SignedIn(s.record), held, None}
        || (SignedIn(t.record) in {Some(Added(id)), Some(Rotated(id))} && Written(t, SignedIn(t.record).value)))
  }

  lemma AddKeepsPairs(s: State, move: Move)
    requires move.id in s.commands && IsAdd(s.commands[move.id])
    ensures PairsKept(s, AddStep(s, s.commands[move.id], move), move.id)
  {
  }

  lemma RemovalKeepsPairs(s: State, move: Move)
    requires move.id in s.commands && IsRemoval(s.commands[move.id])
    ensures PairsKept(s, RemoveStep(s, s.commands[move.id], move), move.id)
  {
  }

  lemma RefreshKeepsPairs(s: State, move: Move)
    requires move.id in s.commands && IsRefresh(s.commands[move.id])
    ensures PairsKept(s, RefreshStep(s, s.commands[move.id], move), move.id)
  {
  }

  lemma PairsMove(s: State, move: Move)
    requires move.id in s.commands
    ensures PairsKept(s, Step(s, move), move.id)
  {
    hide AddStep, RemoveStep, RefreshStep;
    var command := s.commands[move.id];
    if IsAdd(command) { AddKeepsPairs(s, move); }
    else if IsRemoval(command) { RemovalKeepsPairs(s, move); }
    else if IsRefresh(command) { RefreshKeepsPairs(s, move); }
  }

  lemma StepKeepsProvenance(s: State, move: Move)
    requires Provenance(s)
    ensures Provenance(Step(s, move))
  {
    if move.id in s.commands {
      PairsMove(s, move);
      var t := Step(s, move);
      if s.record.SignIn? { StepKeepsWritten(s, move, s.record.pair); }
      forall id | id in s.commands && Held(s.commands[id]).Some? ensures Written(t, Held(s.commands[id]).value) {
        StepKeepsWritten(s, move, Held(s.commands[id]).value);
      }
      hide Step, Held, Written;
    }
  }

  lemma AddKeepsRestoresOthers(s: State, move: Move)
    requires Provenance(s) && RestoresOthers(s) && move.id in s.commands && IsAdd(s.commands[move.id])
    ensures RestoresOthers(AddStep(s, s.commands[move.id], move))
  {
    hide ReplaceIf;
  }

  lemma StepKeepsRestoresOthers(s: State, move: Move)
    requires Provenance(s) && RestoresOthers(s)
    ensures RestoresOthers(Step(s, move))
  {
    hide Provenance, AddStep, ReplaceIf;
    if move.id in s.commands && IsAdd(s.commands[move.id]) { AddKeepsRestoresOthers(s, move); }
  }

  lemma AddKeepsRemovals(s: State, move: Move)
    requires LockHeldOnce(s) && RemovalSeesFile(s) && RemovalClock(s) && move.id in s.commands && IsAdd(s.commands[move.id])
    ensures RemovalSeesFile(AddStep(s, s.commands[move.id], move)) && RemovalClock(AddStep(s, s.commands[move.id], move))
  {
    hide ReplaceIf, LockHeldOnce;
  }

  lemma RemovalKeepsRemovals(s: State, move: Move)
    requires LockHeldOnce(s) && RemovalSeesFile(s) && RemovalClock(s) && move.id in s.commands && IsRemoval(s.commands[move.id])
    ensures RemovalSeesFile(RemoveStep(s, s.commands[move.id], move)) && RemovalClock(RemoveStep(s, s.commands[move.id], move))
  {
    hide ReplaceIf;
  }

  lemma StepKeepsRemovals(s: State, move: Move)
    requires LockHeldOnce(s) && RemovalSeesFile(s) && RemovalClock(s)
    ensures RemovalSeesFile(Step(s, move)) && RemovalClock(Step(s, move))
  {
    hide AddStep, RemoveStep, ReplaceIf;
    if move.id in s.commands {
      if IsAdd(s.commands[move.id]) { AddKeepsRemovals(s, move); }
      else if IsRemoval(s.commands[move.id]) { RemovalKeepsRemovals(s, move); }
    }
  }

  lemma StepKeepsRow(s: State, move: Move)
    requires RowKept(s)
    ensures RowKept(Step(s, move))
    ensures Disabled(s) ==> Disabled(Step(s, move))
  {
    hide ReplaceIf, SignedIn;
  }

  lemma StepKeepsInv(s: State, move: Move)
    requires Inv(s)
    ensures Inv(Step(s, move))
  {
    StepKeepsLock(s, move);
    StepKeepsProvenance(s, move);
    StepKeepsRestoresOthers(s, move);
    StepKeepsRemovals(s, move);
    StepKeepsRow(s, move);
  }

  /** The invariants hold after every run from an initial state. */
  lemma {:induction false} RunKeepsInv(s: State, moves: seq<Move>)
    requires Inv(s)
    ensures Inv(Run(s, moves))
    decreases |moves|
  {
    if moves != [] {
      StepKeepsInv(s, moves[0]);
      RunKeepsInv(Step(s, moves[0]), moves[1..]);
    }
  }

  lemma InitialInv(s: State)
    requires Initial(s)
    ensures Inv(s)
  {
  }

  /** A failing add's undo changes the file only while it holds that add's own pair, and leaves that pair out of it. */
  lemma UndoTouchesOnlyItsOwn(start: State, moves: seq<Move>, undo: Move)
    requires Initial(start)
    requires undo.id in Run(start, moves).commands && Run(start, moves).commands[undo.id].AddFailing?
    ensures var s := Run(start, moves);
            var t := Step(s, undo);
            && t.active == s.active
            && (t.record != s.record ==> SignedIn(s.record) == Some(Added(undo.id)))
            && (!undo.fails ==> SignedIn(t.record) != Some(Added(undo.id)))
  {
    InitialInv(start);
    RunKeepsInv(start, moves);
  }

  /** A removal deletes only the pair it read, and certainly deletes it when no add wrote in between. */
  lemma RemovalDeletesOnlyWhatItRead(start: State, moves: seq<Move>, delete: Move)
    requires Initial(start)
    requires delete.id in Run(start, moves).commands && Run(start, moves).commands[delete.id].RemoveDisabled?
    ensures var s := Run(start, moves);
            var (command, t) := (s.commands[delete.id], Step(s, delete));
            && t.active == s.active
            && (t.record != s.record ==> command.signedIn.Some? && SignedIn(s.record) == command.signedIn && t.record == Absent)
            && (command.changed && command.signedIn.Some? && !delete.fails && command.since == s.addWrites ==> t.record == Absent)
  {
    InitialInv(start);
    RunKeepsInv(start, moves);
  }

  /** The add has written its pair, the file no longer holds it, and no add has it to put back. */
  ghost predicate Gone(s: State, id: nat) {
    && Written(s, Added(id)) && SignedIn(s.record) != Some(Added(id))
    && forall other :: other in s.commands && (s.commands[other].AddRead? || s.commands[other].AddStored? || s.commands[other].AddFailing?)
                       ==> s.commands[other].previous != Some(Added(id))
  }

  lemma AddKeepsGone(s: State, id: nat, move: Move)
    requires Gone(s, id) && move.id in s.commands && IsAdd(s.commands[move.id])
    ensures Gone(AddStep(s, s.commands[move.id], move), id)
  {
  }

  lemma StepKeepsGone(s: State, id: nat, move: Move)
    requires Gone(s, id)
    ensures Gone(Step(s, move), id)
  {
    StepKeepsWritten(s, move, Added(id));
    hide AddStep;
    if move.id in s.commands && IsAdd(s.commands[move.id]) { AddKeepsGone(s, id, move); }
  }

  /** Once an undone add's pair is gone and unread, no later interleaving brings it back. */
  lemma {:induction false} GoneStaysGone(s: State, id: nat, moves: seq<Move>)
    requires Gone(s, id)
    ensures Gone(Run(s, moves), id)
    decreases |moves|
  {
    hide Step, Gone;
    if moves != [] {
      StepKeepsGone(s, id, moves[0]);
      GoneStaysGone(Step(s, moves[0]), id, moves[1..]);
    }
  }

  ghost predicate NoneActivated(s: State, t: State) {
    forall id :: id in t.commands && t.commands[id] == Finished(Activated) ==> id in s.commands && s.commands[id] == Finished(Activated)
  }

  lemma AddKeepsDisabled(s: State, move: Move)
    requires Disabled(s) && move.id in s.commands && IsAdd(s.commands[move.id])
    ensures var t := AddStep(s, s.commands[move.id], move); Disabled(t) && NoneActivated(s, t)
  {
    hide ReplaceIf, SignedIn;
  }

  lemma StepKeepsDisabled(s: State, move: Move)
    requires Disabled(s)
    ensures Disabled(Step(s, move)) && NoneActivated(s, Step(s, move))
  {
    hide AddStep, ReplaceIf, SignedIn;
    if move.id in s.commands && IsAdd(s.commands[move.id]) { AddKeepsDisabled(s, move); }
  }

  /** After a removal no add of that name succeeds: its row stays inactive whatever runs. */
  lemma {:induction false} RemovedStaysRemoved(s: State, moves: seq<Move>)
    requires Disabled(s)
    ensures Disabled(Run(s, moves)) && NoneActivated(s, Run(s, moves))
    decreases |moves|
  {
    if moves != [] {
      StepKeepsDisabled(s, moves[0]);
      hide Step, Disabled;
      RemovedStaysRemoved(Step(s, moves[0]), moves[1..]);
    }
  }

  /** Once a removal has taken the connection away, no later run activates the name again. */
  lemma NoAddAfterRemoval(start: State, moves: seq<Move>, id: nat, more: seq<Move>)
    requires Initial(start)
    requires var s := Run(start, moves); id in s.commands && s.commands[id].RemoveDisabled? && s.commands[id].changed
    ensures var s := Run(start, moves); Disabled(Run(s, more)) && NoneActivated(s, Run(s, more))
  {
    InitialInv(start);
    RunKeepsInv(start, moves);
    RemovedStaysRemoved(Run(start, moves), more);
  }

  /** A name with a row, whose removals past the disabling have left it inactive. */
  ghost predicate RemovedIsDisabled(s: State) {
    && s.used != {}
    && forall id :: id in s.commands && (s.commands[id].RemoveDisabled? || s.commands[id] == Finished(Removed)) ==> Disabled(s)
  }

  lemma AddKeepsRemoved(s: State, move: Move)
    requires RemovedIsDisabled(s) && move.id in s.commands && IsAdd(s.commands[move.id])
    ensures RemovedIsDisabled(AddStep(s, s.commands[move.id], move))
  {
    hide ReplaceIf, SignedIn;
  }

  lemma StepKeepsRemoved(s: State, move: Move)
    requires RemovedIsDisabled(s)
    ensures RemovedIsDisabled(Step(s, move))
  {
    hide AddStep, ReplaceIf, SignedIn;
    if move.id in s.commands && IsAdd(s.commands[move.id]) { AddKeepsRemoved(s, move); }
  }

  lemma {:induction false} RunKeepsRemoved(s: State, moves: seq<Move>)
    requires RemovedIsDisabled(s)
    ensures RemovedIsDisabled(Run(s, moves))
    decreases |moves|
  {
    hide Step, RemovedIsDisabled;
    if moves != [] {
      StepKeepsRemoved(s, moves[0]);
      RunKeepsRemoved(Step(s, moves[0]), moves[1..]);
    }
  }

  /** In every interleaving over an active connection, once a removal has ended as removed, the name is inactive then and ever after. */
  lemma RemovedMeansDisabled(start: State, moves: seq<Move>, id: nat, more: seq<Move>)
    requires Initial(start) && start.active.Some?
    requires id in Run(start, moves).commands && Run(start, moves).commands[id] == Finished(Removed)
    ensures Disabled(Run(start, moves)) && Disabled(Run(Run(start, moves), more))
  {
    hide Run;
    RunKeepsRemoved(start, moves);
    RemovedStaysRemoved(Run(start, moves), more);
  }

  /** A removal that has not ended, or ended as removed, or as not removed where one of its calls failed. */
  ghost predicate Removing(s: State, id: nat, failed: bool) {
    && id in s.commands
    && (IsRemoval(s.commands[id]) || s.commands[id] == Finished(Removed) || (failed && s.commands[id] == Finished(NotRemoved)))
  }

  lemma StepKeepsRemoving(s: State, id: nat, failed: bool, move: Move)
    requires Removing(s, id, failed)
    ensures Removing(Step(s, move), id, failed || (move.id == id && move.fails))
  {
    hide AddStep, RefreshStep, ReplaceIf, SignedIn;
    if move.id in s.commands { OthersStay(s, move); }
  }

  lemma OthersStay(s: State, move: Move)
    requires move.id in s.commands
    ensures forall other :: other in s.commands && other != move.id ==> other in Step(s, move).commands && Step(s, move).commands[other] == s.commands[other]
  {
    hide ReplaceIf, SignedIn, Allowed;
  }

  /** In every interleaving a removal ends as removed, or as not removed because one of its calls failed. */
  lemma {:induction false} RemovalsEnd(s: State, id: nat, failed: bool, moves: seq<Move>)
    requires Removing(s, id, failed)
    ensures Removing(Run(s, moves), id, failed || exists k :: 0 <= k < |moves| && moves[k].id == id && moves[k].fails)
    decreases |moves|
  {
    hide Step, Removing;
    if moves != [] {
      var now := failed || (moves[0].id == id && moves[0].fails);
      StepKeepsRemoving(s, id, failed, moves[0]);
      RemovalsEnd(Step(s, moves[0]), id, now, moves[1..]);
      assert forall k :: 0 <= k < |moves[1..]| ==> moves[1..][k] == moves[k + 1];
    }
  }

  /** A refresh is refused only by a failing call, or when what it reads is no sign-in for the settings it serves. */
  lemma RefreshGivesUp(s: State, move: Move)
    requires move.id in s.commands && IsRefresh(s.commands[move.id]) && Step(s, move).commands[move.id].Finished?
    ensures var (c, end) := (s.commands[move.id], Step(s, move).commands[move.id].end);
            && (end == Refreshed || end == Refused)
            && (end == Refused ==> move.fails || (c.RefreshLocked? && (!s.record.SignIn? || s.record.binding != c.serving)))
            && (c.RefreshStart? ==> s.lock.Some?) && (end == Refreshed ==> c.RefreshRead?)
  {
  }

  /** A held lock has a holder that has not ended. */
  ghost predicate LockIsHeld(s: State) { s.lock.Some? ==> s.lock.value in s.commands && Locked(s.commands[s.lock.value]) }

  lemma StepKeepsHolder(s: State, move: Move)
    requires LockHeldOnce(s) && LockIsHeld(s)
    ensures LockIsHeld(Step(s, move))
  {
    hide ReplaceIf, SignedIn, Allowed;
  }

  /** In every interleaving the lock is free once the commands that took it have ended: none is left waiting for good. */
  lemma {:induction false} LockIsReleased(s: State, moves: seq<Move>)
    requires LockHeldOnce(s) && LockIsHeld(s)
    ensures LockIsHeld(Run(s, moves))
    decreases |moves|
  {
    if moves != [] {
      StepKeepsLock(s, moves[0]);
      StepKeepsHolder(s, moves[0]);
      hide Step, LockHeldOnce, LockIsHeld;
      LockIsReleased(Step(s, moves[0]), moves[1..]);
    }
  }
}
