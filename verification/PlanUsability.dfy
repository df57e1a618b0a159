/** When can a run of plan commands leave a plan connection active on a sign-in it cannot dispatch on? Exactly from these starts. */
module PlanUsability {
  import opened Wrappers
  import opened PlanSignIn

  /** An active plan connection has a sign-in bound to its settings; a dispatch refuses any other. */
  ghost predicate Usable(s: State) {
    s.active.Some? && s.active.value.plan ==> s.record.SignIn? && s.record.binding == s.active.value
  }

  predicate InFlight(s: State, id: nat) { id in s.commands && (s.commands[id].AddStored? || s.commands[id].AddFailing?) }

  /** Usable whenever no add is between its write and its end. */
  ghost predicate UsableAtRest(s: State) { (forall id :: !InFlight(s, id)) ==> Usable(s) }

  predicate StartsAdd(s: State, id: nat) { id in s.commands && s.commands[id].AddStart? }

  /** An add that the connection at the start lets write its sign-in. */
  predicate Passing(s: State, id: nat) {
    StartsAdd(s, id) && (s.active.None? || s.active.value == s.commands[id].config || s.commands[id].replace)
  }

  /** An add that the store lets activate settings the name never had. */
  predicate Revising(s: State, id: nat) {
    StartsAdd(s, id) && s.commands[id].config !in s.used && Allowed(s, s.commands[id].config, s.commands[id].replace)
  }

  /** An add that writes over the sign-in of an active plan connection for other settings. */
  predicate Overwrites(s: State, id: nat) {
    StartsAdd(s, id) && s.active.Some? && s.active.value.plan && s.commands[id].replace && s.commands[id].config != s.active.value
  }

  predicate StartsRefresh(s: State, id: nat, serving: Config) { id in s.commands && s.commands[id] == RefreshStart(serving) }

  /** Nothing that raises, in an activation or in its undo, can leave the connection unusable. */
  ghost predicate SafeWhateverRaises(s: State) {
    s.record.ApiKey? || forall id :: !Revising(s, id) && !Overwrites(s, id)
  }

  /** Where a raising transaction never landed and no undo raises, an add that revises must be the only one that writes, and no refresh
      may serve the settings of an add that overwrites. */
  ghost predicate SafeWhenTidy(s: State) {
    || s.record.ApiKey?
    || ((forall i, j :: Revising(s, i) && Passing(s, j) ==> i == j)
        && forall i, r :: Overwrites(s, i) ==> !StartsRefresh(s, r, s.commands[i].config))
  }

  predicate TidyMove(s: State, move: Move) {
    !move.landed && (move.fails && move.id in s.commands ==> !s.commands[move.id].AddFailing?)
  }

  /** A transaction that raises has not landed, and no undo raises. */
  predicate Tidy(s: State, moves: seq<Move>)
    decreases |moves|
  {
    moves == [] || (TidyMove(s, moves[0]) && Tidy(Step(s, moves[0]), moves[1..]))
  }

  ghost predicate NoneFails(moves: seq<Move>) { forall move :: move in moves ==> !move.fails && !move.landed }

  // ----- What stays true from a safe start -----

  /** An API key holds the name. */
  ghost predicate KeyHeld(s: State) {
    && s.record.ApiKey? && (s.active.Some? ==> !s.active.value.plan)
    && forall id :: id in s.commands && IsAdd(s.commands[id]) ==> s.commands[id].AddStart? || s.commands[id].AddKnows?
  }

  /** Nothing is active and no add runs. */
  ghost predicate Idle(s: State) { s.active.None? && forall id :: id in s.commands ==> !IsAdd(s.commands[id]) }

  /** A key connection that the store revises for none of the adds. */
  ghost predicate KeyKept(s: State) {
    && s.active.Some? && !s.active.value.plan
    && forall id :: id in s.commands && IsAdd(s.commands[id]) ==>
         s.commands[id].config != s.active.value && (!s.commands[id].replace || s.commands[id].config in s.used)
  }

  /** A plan connection that the store revises for none of the adds; the file holds its sign-in or what an add in flight just wrote. */
  ghost predicate Live(s: State, tidy: bool) {
    && s.active.Some? && s.record.SignIn?
    && (s.record.binding == s.active.value || OwnWrite(s))
    && (forall id :: id in s.commands && IsAdd(s.commands[id]) ==> Harmless(s, s.commands[id], tidy))
    && RefreshesSpare(s)
  }

  predicate OwnWrite(s: State)
    requires s.record.SignIn?
  {
    s.record.pair.Added? && InFlight(s, s.record.pair.owner) && s.record.binding == s.commands[s.record.pair.owner].config
  }

  /** It signs in again, is refused before it writes, or (in a tidy run) is refused at the store and undone. */
  ghost predicate Harmless(s: State, command: Command, tidy: bool)
    requires IsAdd(command) && s.active.Some?
  {
    var (config, replace) := (command.config, command.replace);
    && (config == s.active.value || !replace || (tidy && config in s.used))
    && match command
       case AddStart(_, _) => true
       case AddKnows(_, _, existing) => existing == s.active || (!replace && existing.Some? && existing.value != config)
       case AddRead(_, _, existing, previous) => Restores(s, command, existing, previous)
       case AddStored(_, _, existing, previous) => Restores(s, command, existing, previous)
       case AddFailing(_, _, existing, previous) => Restores(s, command, existing, previous)
  }

  predicate Restores(s: State, command: Command, existing: Option<Config>, previous: Option<Pair>)
    requires IsAdd(command) && s.active.Some?
  {
    existing == s.active && previous.Some? && (command.config == s.active.value || command.replace)
  }

  /** No refresh takes up a pair that an add of other settings wrote. */
  ghost predicate RefreshesSpare(s: State)
    requires s.active.Some? && s.record.SignIn?
  {
    && (forall id, r :: id in s.commands && r in s.commands && Revises(s, s.commands[id]) && Serves(s.commands[r])
                        ==> s.commands[r].serving != s.commands[id].config)
    && forall r :: r in s.commands && s.commands[r] == RefreshRead(s.record.pair) ==> s.record.binding == s.active.value
  }

  predicate Revises(s: State, command: Command)
    requires s.active.Some?
  {
    IsAdd(command) && command.replace && command.config != s.active.value
  }

  predicate Serves(command: Command) { command.RefreshStart? || command.RefreshLocked? }

  /** `i` may still activate new settings, and every other add waits behind the connection there is. */
  ghost predicate Contending(s: State, i: nat) {
    && !s.record.ApiKey? && (s.active.None? ==> s.used == {})
    && (i in s.commands && IsAdd(s.commands[i]) ==> Contends(s, i))
    && (s.active.Some? && s.active.value.plan && !InFlight(s, i) ==> s.record.SignIn? && s.record.binding == s.active.value)
    && forall id :: id in s.commands && id != i && IsAdd(s.commands[id]) ==> Waits(s, s.commands[id])
  }

  ghost predicate Contends(s: State, i: nat)
    requires i in s.commands && IsAdd(s.commands[i])
  {
    var (config, plan) := (s.commands[i].config, s.active.Some? && s.active.value.plan);
    && config !in s.used && (s.active.Some? ==> s.commands[i].replace)
    && (s.commands[i].AddKnows? || s.commands[i].AddRead? || InFlight(s, i) ==> s.commands[i].existing == s.active)
    && (plan && (s.commands[i].AddRead? || InFlight(s, i)) ==> s.commands[i].previous.Some?)
    && (s.commands[i].AddStored? ==> s.record.SignIn? && s.record.binding == config)
    && (plan && InFlight(s, i) ==> s.record == SignIn(Added(i), config))
    && (plan ==> forall r :: r in s.commands ==>
         && (Serves(s.commands[r]) ==> s.commands[r].serving != config)
         && (s.commands[r].RefreshRead? ==> s.commands[r].stored != Added(i)))
  }

  predicate Waits(s: State, command: Command)
    requires IsAdd(command)
  {
    && s.active.Some? && !command.replace && command.config != s.active.value
    && (command.AddStart? || (command.AddKnows? && command.existing == s.active))
  }

  ghost predicate Safe(s: State, i: nat, tidy: bool) {
    KeyHeld(s) || Disabled(s) || Idle(s) || KeyKept(s) || Live(s, tidy) || (tidy && Contending(s, i))
  }

  lemma KeyHeldStays(s: State, move: Move)
    requires KeyHeld(s)
    ensures KeyHeld(Step(s, move))
  {
  }

  lemma KeyKeptStays(s: State, move: Move)
    requires RowKept(s) && KeyKept(s)
    ensures KeyKept(Step(s, move)) || Disabled(Step(s, move))
  {
    hide ReplaceIf;
  }

  lemma IdleStays(s: State, move: Move)
    requires Idle(s)
    ensures Idle(Step(s, move))
  {
    hide AddStep;
  }

  /** Nothing in the run holds a pair that an add has not written yet. */
  lemma Unheld(s: State, id: nat)
    requires Inv(s) && id in s.commands && s.commands[id].AddRead?
    ensures forall r :: r in s.commands ==> s.commands[r] != RefreshRead(Added(id))
  {
    forall r | r in s.commands && s.commands[r].RefreshRead? ensures s.commands[r].stored != Added(id) {
      assert Held(s.commands[r]) == Some(s.commands[r].stored);
    }
  }

  /** A removal may take the connection away, and deletes only once it has. */
  lemma RemovalActs(s: State, move: Move)
    requires RowKept(s) && move.id in s.commands && IsRemoval(s.commands[move.id])
    ensures var t := RemoveStep(s, s.commands[move.id], move);
            && move.id in t.commands && t.commands == s.commands[move.id := t.commands[move.id]] && t.used == s.used
            && (IsRemoval(t.commands[move.id]) || t.commands[move.id].Finished?)
            && (Disabled(t) || (t.active == s.active && t.record == s.record))
  {
  }

  /** A refresh takes up a pair bound to what it serves, and rotates it in place. */
  ghost predicate RefreshActed(s: State, t: State, id: nat, before: Command, after: Command) {
    && t.commands == s.commands[id := after] && t.active == s.active && t.used == s.used
    && if t.record == s.record then
         || after.Finished?
         || (Serves(before) && Serves(after) && after.serving == before.serving)
         || (Serves(before) && s.record.SignIn? && before.serving == s.record.binding && after == RefreshRead(s.record.pair))
       else
         s.record.SignIn? && before == RefreshRead(s.record.pair) && after.Finished? && t.record == SignIn(Rotated(id), s.record.binding)
  }

  lemma RefreshActs(s: State, move: Move)
    requires move.id in s.commands && IsRefresh(s.commands[move.id])
    ensures var t := RefreshStep(s, s.commands[move.id], move);
            move.id in t.commands && RefreshActed(s, t, move.id, s.commands[move.id], t.commands[move.id])
  {
  }

  /** What a step by `id` from a live connection must show. */
  ghost predicate LiveStep(s: State, t: State, id: nat, tidy: bool)
    requires id in s.commands && s.active.Some?
  {
    && t.commands.Keys == s.commands.Keys && t.active == s.active && s.used <= t.used && t.record.SignIn?
    && (forall other :: other in s.commands && other != id ==> t.commands[other] == s.commands[other])
    && (IsAdd(t.commands[id]) ==> IsAdd(s.commands[id]) && t.commands[id].config == s.commands[id].config
                                  && t.commands[id].replace == s.commands[id].replace && Harmless(t, t.commands[id], tidy))
    && (Serves(t.commands[id]) ==> Serves(s.commands[id]) && t.commands[id].serving == s.commands[id].serving)
    && (t.record.binding == s.active.value || (OwnWrite(t) && (forall r :: r in t.commands ==> t.commands[r] != RefreshRead(t.record.pair))))
  }

  lemma LiveFramed(s: State, t: State, id: nat, tidy: bool)
    requires Live(s, tidy) && id in s.commands && LiveStep(s, t, id, tidy)
    ensures Live(t, tidy)
  {
  }

  lemma LiveReads(s: State, move: Move, tidy: bool)
    requires Live(s, tidy) && move.id in s.commands && (s.commands[move.id].AddStart? || s.commands[move.id].AddKnows?)
    ensures LiveStep(s, AddStep(s, s.commands[move.id], move), move.id, tidy)
  {
    hide ReplaceIf, Allowed;
  }

  lemma LiveStores(s: State, move: Move, tidy: bool)
    requires Inv(s) && Live(s, tidy) && move.id in s.commands && s.commands[move.id].AddRead?
    ensures LiveStep(s, AddStep(s, s.commands[move.id], move), move.id, tidy)
  {
    Unheld(s, move.id);
    hide ReplaceIf, Allowed, Inv;
  }

  lemma LiveActivates(s: State, move: Move, tidy: bool)
    requires RowKept(s) && Live(s, tidy) && move.id in s.commands && s.commands[move.id].AddStored?
    ensures LiveStep(s, AddStep(s, s.commands[move.id], move), move.id, tidy)
  {
    assert s.active.value in s.used;
    hide ReplaceIf, RowKept;
  }

  lemma LiveUndoes(s: State, move: Move, tidy: bool)
    requires Live(s, tidy) && (tidy ==> TidyMove(s, move)) && move.id in s.commands && s.commands[move.id].AddFailing?
    ensures LiveStep(s, AddStep(s, s.commands[move.id], move), move.id, tidy)
  {
    hide Allowed;
  }

  lemma LiveRemovals(s: State, move: Move, tidy: bool)
    requires RowKept(s) && Live(s, tidy) && move.id in s.commands && IsRemoval(s.commands[move.id])
    ensures var t := RemoveStep(s, s.commands[move.id], move); Disabled(t) || LiveStep(s, t, move.id, tidy)
  {
    RemovalActs(s, move);
    hide RemoveStep, RowKept;
  }

  lemma LiveRefreshes(s: State, move: Move, tidy: bool)
    requires Live(s, tidy) && move.id in s.commands && IsRefresh(s.commands[move.id])
    ensures LiveStep(s, RefreshStep(s, s.commands[move.id], move), move.id, tidy)
  {
    RefreshActs(s, move);
    hide RefreshStep;
  }

  lemma LiveStays(s: State, move: Move, tidy: bool)
    requires Inv(s) && Live(s, tidy) && (tidy ==> TidyMove(s, move))
    ensures Live(Step(s, move), tidy) || Disabled(Step(s, move))
  {
    if move.id in s.commands {
      var (command, t) := (s.commands[move.id], Step(s, move));
      if command.AddStart? || command.AddKnows? { LiveReads(s, move, tidy); }
      else if command.AddRead? { LiveStores(s, move, tidy); }
      else if command.AddStored? { LiveActivates(s, move, tidy); }
      else if command.AddFailing? { LiveUndoes(s, move, tidy); }
      else if IsRemoval(command) { LiveRemovals(s, move, tidy); }
      else if IsRefresh(command) { LiveRefreshes(s, move, tidy); }
      hide AddStep, RemoveStep, RefreshStep, Inv, LiveStep, Live;
      if LiveStep(s, t, move.id, tidy) { LiveFramed(s, t, move.id, tidy); }
    }
  }

  lemma ContenderMoves(s: State, i: nat, move: Move)
    requires Inv(s) && Contending(s, i) && TidyMove(s, move) && move.id == i && i in s.commands && IsAdd(s.commands[i])
    ensures var t := AddStep(s, s.commands[i], move); Contending(t, i) || Live(t, true)
  {
    if s.commands[i].AddRead? { Unheld(s, i); }
    assert s.active.Some? ==> s.active.value in s.used;
    hide Inv;
  }

  lemma WaiterMoves(s: State, i: nat, move: Move)
    requires Contending(s, i) && move.id != i && move.id in s.commands && IsAdd(s.commands[move.id])
    ensures Contending(AddStep(s, s.commands[move.id], move), i)
  {
    hide ReplaceIf, Allowed;
  }

  lemma ContendingRemovals(s: State, i: nat, move: Move)
    requires RowKept(s) && Contending(s, i) && move.id in s.commands && IsRemoval(s.commands[move.id])
    ensures var t := RemoveStep(s, s.commands[move.id], move); Contending(t, i) || Disabled(t)
  {
    RemovalActs(s, move);
    hide RemoveStep, RowKept;
  }

  /** The sign-in in the file is not one that an add has still to write. */
  lemma Unwritten(s: State, i: nat)
    requires Inv(s) && i in s.commands && IsAdd(s.commands[i]) && !InFlight(s, i)
    ensures SignedIn(s.record) != Some(Added(i))
  {
  }

  lemma ContenderBeside(s: State, t: State, i: nat, id: nat)
    requires Contending(s, i) && i in s.commands && IsAdd(s.commands[i]) && (InFlight(s, i) || SignedIn(s.record) != Some(Added(i)))
    requires id in s.commands && IsRefresh(s.commands[id]) && id in t.commands && RefreshActed(s, t, id, s.commands[id], t.commands[id])
    ensures i in t.commands && Contends(t, i)
  {
    assert t.commands[i] == s.commands[i];
  }

  lemma ContendingRefreshes(s: State, i: nat, move: Move)
    requires Inv(s) && Contending(s, i) && move.id in s.commands && IsRefresh(s.commands[move.id])
    ensures Contending(RefreshStep(s, s.commands[move.id], move), i)
  {
    RefreshActs(s, move);
    if i in s.commands && IsAdd(s.commands[i]) {
      if !InFlight(s, i) { Unwritten(s, i); }
      ContenderBeside(s, RefreshStep(s, s.commands[move.id], move), i, move.id);
    }
    hide RefreshStep, Inv, Contends;
  }

  lemma ContendingStays(s: State, i: nat, move: Move)
    requires Inv(s) && Contending(s, i) && TidyMove(s, move)
    ensures var t := Step(s, move); Contending(t, i) || Live(t, true) || Disabled(t)
  {
    if move.id in s.commands {
      var command := s.commands[move.id];
      if IsAdd(command) && move.id == i { ContenderMoves(s, i, move); }
      else if IsAdd(command) { WaiterMoves(s, i, move); }
      else if IsRemoval(command) { ContendingRemovals(s, i, move); }
      else if IsRefresh(command) { ContendingRefreshes(s, i, move); }
      hide AddStep, RemoveStep, RefreshStep, Inv, Contending, Live, TidyMove;
    }
  }

  lemma SafeStays(s: State, i: nat, move: Move, tidy: bool)
    requires Inv(s) && Safe(s, i, tidy) && (tidy ==> TidyMove(s, move))
    ensures Safe(Step(s, move), i, tidy)
  {
    if KeyHeld(s) { KeyHeldStays(s, move); }
    else if KeyKept(s) { KeyKeptStays(s, move); }
    else if Disabled(s) { StepKeepsRow(s, move); }
    else if Idle(s) { IdleStays(s, move); }
    else if Live(s, tidy) { LiveStays(s, move, tidy); }
    else { ContendingStays(s, i, move); }
    hide Step, Inv, KeyHeld, KeyKept, Disabled, Idle, Live, Contending;
  }

  lemma SafeIsUsable(s: State, i: nat, tidy: bool)
    requires Safe(s, i, tidy)
    ensures UsableAtRest(s)
  {
  }

  /** A safe start stays usable at rest; a tidy one in every tidy run. */
  lemma {:induction false} SafeRuns(s: State, i: nat, moves: seq<Move>, tidy: bool)
    requires Inv(s) && Safe(s, i, tidy) && (tidy ==> Tidy(s, moves))
    ensures UsableAtRest(Run(s, moves))
    decreases |moves|
  {
    if moves == [] {
      SafeIsUsable(s, i, tidy);
    } else {
      StepKeepsInv(s, moves[0]);
      SafeStays(s, i, moves[0], tidy);
      hide Step, Inv, Safe, UsableAtRest, TidyMove;
      SafeRuns(Step(s, moves[0]), i, moves[1..], tidy);
    }
  }

  /** A start that revises nothing, or only by `i` in a tidy run. */
  lemma SafeStart(s: State, i: nat, tidy: bool)
    requires Initial(s) && Usable(s) && (if tidy then SafeWhenTidy(s) else SafeWhateverRaises(s))
    requires Revising(s, i) || forall id :: !Revising(s, id)
    ensures Safe(s, i, tidy)
  {
    if !s.record.ApiKey? && !Disabled(s) {
      assert forall id :: id in s.commands && IsAdd(s.commands[id]) ==> StartsAdd(s, id);
      if Revising(s, i) {
        ContendingStart(s, i);
      } else if s.active.None? {
        assert forall id :: StartsAdd(s, id) ==> Revising(s, id);
      } else if s.active.value.plan {
        LiveStart(s, tidy);
      } else {
        forall id | StartsAdd(s, id) ensures !s.commands[id].replace || s.commands[id].config in s.used { assert !Revising(s, id); }
      }
    }
  }

  lemma ContendingStart(s: State, i: nat)
    requires Initial(s) && Usable(s) && SafeWhenTidy(s) && !s.record.ApiKey? && Revising(s, i)
    ensures Contending(s, i)
  {
    forall id | id in s.commands && id != i && IsAdd(s.commands[id]) ensures Waits(s, s.commands[id]) {
      assert StartsAdd(s, id) && !Passing(s, id);
    }
    forall r | s.active.Some? && s.active.value.plan && r in s.commands && Serves(s.commands[r])
      ensures s.commands[r].serving != s.commands[i].config
    {
      assert Overwrites(s, i) && !StartsRefresh(s, r, s.commands[i].config);
    }
  }

  lemma LiveStart(s: State, tidy: bool)
    requires Initial(s) && Usable(s) && (if tidy then SafeWhenTidy(s) else SafeWhateverRaises(s)) && !s.record.ApiKey?
    requires s.active.Some? && s.active.value.plan && forall id :: !Revising(s, id)
    ensures Live(s, tidy)
  {
    forall id | id in s.commands && IsAdd(s.commands[id]) ensures Harmless(s, s.commands[id], tidy) {
      assert StartsAdd(s, id) && !Revising(s, id);
      assert tidy || !Overwrites(s, id);
    }
    forall id, r | id in s.commands && r in s.commands && Revises(s, s.commands[id]) && Serves(s.commands[r])
      ensures s.commands[r].serving != s.commands[id].config
    {
      assert Overwrites(s, id) && !StartsRefresh(s, r, s.commands[id].config);
    }
  }

  // ----- Runs that lose the sign-in -----

  lemma {:induction false} RunIsSteps(s: State, first: seq<Move>, rest: seq<Move>)
    ensures Run(s, first + rest) == Run(Run(s, first), rest)
    ensures Tidy(s, first) && Tidy(Run(s, first), rest) ==> Tidy(s, first + rest)
    decreases |first|
  {
    hide Step, TidyMove;
    if first == [] {
      assert first + rest == rest;
    } else {
      assert (first + rest)[1..] == first[1..] + rest;
      RunIsSteps(Step(s, first[0]), first[1..], rest);
    }
  }

  lemma RunOne(s: State, x: Move)
    ensures Run(s, [x]) == Step(s, x)
    ensures Tidy(s, [x]) <==> TidyMove(s, x)
  {
    hide Step, TidyMove;
    assert [x][1..] == [];
    assert Run(Step(s, x), []) == Step(s, x) && Tidy(Step(s, x), []);
  }

  lemma RunTwo(s: State, x: Move, y: Move)
    ensures Run(s, [x, y]) == Step(Step(s, x), y)
    ensures Tidy(s, [x, y]) <==> TidyMove(s, x) && TidyMove(Step(s, x), y)
  {
    hide Step, TidyMove;
    assert [x, y][1..] == [y];
    RunOne(Step(s, x), y);
  }

  lemma RunThree(s: State, x: Move, y: Move, z: Move)
    ensures Run(s, [x, y, z]) == Step(Step(Step(s, x), y), z)
    ensures Tidy(s, [x, y, z]) <==> TidyMove(s, x) && TidyMove(Step(s, x), y) && TidyMove(Step(Step(s, x), y), z)
  {
    hide Step, TidyMove;
    assert [x, y, z][1..] == [y, z];
    RunTwo(Step(s, x), y, z);
  }

  function Quiet(id: nat): Move { Move(id, false, false) }

  /** An add that has read what is there. */
  function HasRead(s: State, i: nat): Command
    requires StartsAdd(s, i)
  {
    AddRead(s.commands[i].config, s.commands[i].replace, s.active, SignedIn(s.record))
  }

  lemma ReadsFirst(s: State, i: nat)
    requires Passing(s, i) && !s.record.ApiKey?
    ensures Run(s, [Quiet(i), Quiet(i)]) == Become(s, i, HasRead(s, i)) && Tidy(s, [Quiet(i), Quiet(i)])
  {
    RunTwo(s, Quiet(i), Quiet(i));
    var c := s.commands[i];
    var t := Step(s, Quiet(i));
    assert t == Become(s, i, AddKnows(c.config, c.replace, s.active));
    assert Step(t, Quiet(i)).commands == s.commands[i := HasRead(s, i)];
  }

  function Wrote(s: State, i: nat): State
    requires i in s.commands && s.commands[i].AddRead?
  {
    var c := s.commands[i];
    Become(s, i, AddStored(c.config, c.replace, c.existing, c.previous)).(record := SignIn(Added(i), c.config), addWrites := s.addWrites + 1)
  }

  lemma Writes(s: State, i: nat)
    requires i in s.commands && s.commands[i].AddRead?
    ensures Run(s, [Quiet(i)]) == Wrote(s, i) && Tidy(s, [Quiet(i)])
  {
    RunOne(s, Quiet(i));
  }

  /** Write, activate. */
  lemma Activates(s: State, i: nat)
    requires i in s.commands && s.commands[i].AddRead? && Allowed(s, s.commands[i].config, s.commands[i].replace)
    ensures var (c, t) := (s.commands[i], Run(s, [Quiet(i), Quiet(i)]));
            && t.record == SignIn(Added(i), c.config) && t.active == Some(c.config) && t.used == s.used + {c.config}
            && t.commands == s.commands[i := Finished(Activated)]
    ensures Tidy(s, [Quiet(i), Quiet(i)])
  {
    RunTwo(s, Quiet(i), Quiet(i));
    assert Step(s, Quiet(i)) == Wrote(s, i);
    assert s.active.Some? && s.active.value == s.commands[i].config ==> Allowed(s, s.commands[i].config, s.commands[i].replace);
  }

  /** What an undo leaves of what an add had read. */
  function Restored(existing: Option<Config>, previous: Option<Pair>): Record {
    if existing.Some? && previous.Some? then SignIn(previous.value, existing.value) else Absent
  }

  /** Write, fail to activate, undo; the connection changes only if what raised had landed. */
  lemma WritesAndUndoes(s: State, i: nat, fail: Move)
    requires i in s.commands && s.commands[i].AddRead? && fail.id == i
    requires fail.fails || !Allowed(s, s.commands[i].config, s.commands[i].replace)
    ensures var (c, t) := (s.commands[i], Run(s, [Quiet(i), fail, Quiet(i)]));
            && t.record == Restored(c.existing, c.previous) && t.commands == s.commands[i := Finished(Undone)]
            && t.active == if fail.landed && Allowed(s, c.config, c.replace) then Some(c.config) else s.active
    ensures !fail.landed ==> Tidy(s, [Quiet(i), fail, Quiet(i)])
  {
    RunThree(s, Quiet(i), fail, Quiet(i));
    var (c, t) := (s.commands[i], Step(s, Quiet(i)));
    assert t == Wrote(s, i);
    var u := Step(t, fail);
    assert u.record == t.record && u.commands == t.commands[i := AddFailing(c.config, c.replace, c.existing, c.previous)];
  }

  ghost predicate Loses(s: State, moves: seq<Move>) { !UsableAtRest(Run(s, moves)) }

  /** One add that revises, and whose transaction lands and then raises. */
  lemma LandedRaiseLoses(s: State, i: nat)
    requires Initial(s) && !s.record.ApiKey? && Revising(s, i)
    ensures exists moves :: Loses(s, moves)
  {
    ReadsFirst(s, i);
    var (t, fail) := (Become(s, i, HasRead(s, i)), Move(i, true, true));
    WritesAndUndoes(t, i, fail);
    RunIsSteps(s, [Quiet(i), Quiet(i)], [Quiet(i), fail, Quiet(i)]);
    assert Loses(s, [Quiet(i), Quiet(i)] + [Quiet(i), fail, Quiet(i)]);
  }

  /** One add that overwrites, and whose activation and undo raise. */
  lemma RaisedUndoLoses(s: State, i: nat)
    requires Initial(s) && !s.record.ApiKey? && Overwrites(s, i)
    ensures exists moves :: Loses(s, moves)
  {
    ReadsFirst(s, i);
    var (t, fail) := (Become(s, i, HasRead(s, i)), Move(i, true, false));
    RunThree(t, Quiet(i), fail, fail);
    RunIsSteps(s, [Quiet(i), Quiet(i)], [Quiet(i), fail, fail]);
    assert Step(t, Quiet(i)) == Wrote(t, i);
    assert Loses(s, [Quiet(i), Quiet(i)] + [Quiet(i), fail, fail]);
  }

  /** Two adds read, `i` activates, and `j` writes, fails and puts back what it had read. */
  lemma TwoContendersLose(s: State, i: nat, j: nat, fail: Move) returns (moves: seq<Move>)
    requires Initial(s) && !s.record.ApiKey? && i != j && Revising(s, i) && Passing(s, j) && fail.id == j && !fail.landed
    requires fail.fails || (s.commands[i].config != s.commands[j].config && (!s.commands[j].replace || s.commands[j].config in s.used))
    ensures Loses(s, moves) && Tidy(s, moves) && (!fail.fails ==> NoneFails(moves))
  {
    hide Step, Run, Tidy;
    ReadsFirst(s, i);
    var s1 := Become(s, i, HasRead(s, i));
    ReadsFirst(s1, j);
    var s2 := Become(s1, j, HasRead(s1, j));
    Activates(s2, i);
    var s3 := Run(s2, [Quiet(i), Quiet(i)]);
    WritesAndUndoes(s3, j, fail);
    var (a, b, c, d) := ([Quiet(i), Quiet(i)], [Quiet(j), Quiet(j)], [Quiet(i), Quiet(i)], [Quiet(j), fail, Quiet(j)]);
    RunIsSteps(s, a, b);
    RunIsSteps(s, a + b, c);
    RunIsSteps(s, a + b + c, d);
    moves := a + b + c + d;
  }

  /** A refresh takes up the pair an add wrote over an active connection, so the add's undo no longer finds it. */
  lemma RefreshedOverwriteLoses(s: State, i: nat, r: nat, fail: Move) returns (moves: seq<Move>)
    requires Initial(s) && Usable(s) && Overwrites(s, i) && StartsRefresh(s, r, s.commands[i].config) && fail.id == i && !fail.landed
    requires fail.fails || s.commands[i].config in s.used
    ensures Loses(s, moves) && Tidy(s, moves) && (!fail.fails ==> NoneFails(moves))
  {
    hide Step, Run, Tidy;
    ReadsFirst(s, i);
    var s1 := Become(s, i, HasRead(s, i));
    Writes(s1, i);
    var s2 := Wrote(s1, i);
    RotatesAndUndoes(s2, i, r, fail);
    var (a, b, c) := ([Quiet(i), Quiet(i)], [Quiet(i)], [Quiet(r), Quiet(r), Quiet(r)]);
    RunIsSteps(s, a, b);
    RunIsSteps(s, a + b, c);
    RunIsSteps(s, a + b + c, [fail, Quiet(i)]);
    moves := a + b + c + [fail, Quiet(i)];
  }

  lemma RotatesAndUndoes(s: State, i: nat, r: nat, fail: Move)
    requires i in s.commands && s.commands[i].AddStored? && s.record == SignIn(Added(i), s.commands[i].config) && s.lock.None?
    requires StartsRefresh(s, r, s.commands[i].config) && fail.id == i && !fail.landed
    requires fail.fails || !Allowed(s, s.commands[i].config, s.commands[i].replace)
    ensures var t := Run(s, [Quiet(r), Quiet(r), Quiet(r)]);
            var u := Run(t, [fail, Quiet(i)]);
            && u.active == s.active && u.record == SignIn(Rotated(r), s.commands[i].config)
            && u.commands == s.commands[r := Finished(Refreshed)][i := Finished(Undone)]
            && Tidy(s, [Quiet(r), Quiet(r), Quiet(r)]) && Tidy(t, [fail, Quiet(i)])
  {
    RunThree(s, Quiet(r), Quiet(r), Quiet(r));
    var t := Run(s, [Quiet(r), Quiet(r), Quiet(r)]);
    assert t.commands == s.commands[r := Finished(Refreshed)] && t.record == SignIn(Rotated(r), s.commands[i].config);
    RunTwo(t, fail, Quiet(i));
  }

  // ----- Exactly when -----

  /** When anything may raise and may have landed, usable runs come exactly from the starts where no add would revise the connection or
      write over the sign-in of an active plan connection for other settings. */
  lemma UsableExactly(s: State)
    requires Initial(s) && Usable(s)
    ensures (forall moves :: UsableAtRest(Run(s, moves))) <==> SafeWhateverRaises(s)
  {
    if SafeWhateverRaises(s) {
      InitialInv(s);
      var i: nat :| Revising(s, i) || forall id :: !Revising(s, id);
      SafeStart(s, i, false);
      forall moves ensures UsableAtRest(Run(s, moves)) { SafeRuns(s, i, moves, false); }
    } else {
      var i :| Revising(s, i) || Overwrites(s, i);
      if Revising(s, i) { LandedRaiseLoses(s, i); } else { RaisedUndoLoses(s, i); }
      assert !SafeWhateverRaises(s);
      assert exists moves :: !UsableAtRest(Run(s, moves)) by {
        var moves :| Loses(s, moves);
        assert !UsableAtRest(Run(s, moves));
      }
    }
  }

  /** When a transaction that raises never landed and no undo raises, an add may revise the connection if no other add writes and no
      refresh serves the settings of an add that overwrites; the starts that break this are exactly the ones with a losing run. */
  lemma UsableExactlyWhenTidy(s: State)
    requires Initial(s) && Usable(s)
    ensures (forall moves :: Tidy(s, moves) ==> UsableAtRest(Run(s, moves))) <==> SafeWhenTidy(s)
  {
    hide UsableAtRest;
    if SafeWhenTidy(s) {
      InitialInv(s);
      var i: nat :| Revising(s, i) || forall id :: !Revising(s, id);
      SafeStart(s, i, true);
      forall moves | Tidy(s, moves) ensures UsableAtRest(Run(s, moves)) { SafeRuns(s, i, moves, true); }
    } else if i, j :| Revising(s, i) && Passing(s, j) && i != j {
      var moves := TwoContendersLose(s, i, j, Move(j, true, false));
      assert !UsableAtRest(Run(s, moves));
    } else {
      var i, r :| Overwrites(s, i) && StartsRefresh(s, r, s.commands[i].config);
      var moves := RefreshedOverwriteLoses(s, i, r, Move(i, true, false));
      assert !UsableAtRest(Run(s, moves));
    }
  }

  /** Two first adds of one name with different settings leave a connection active and signed out without any failing call. */
  lemma TwoFirstAddsLoseTheSignIn(s: State, i: nat, j: nat)
    requires Initial(s) && s.used == {} && !s.record.ApiKey? && StartsAdd(s, i) && StartsAdd(s, j)
    requires s.commands[i].config != s.commands[j].config && !s.commands[j].replace
    ensures exists moves :: NoneFails(moves) && Loses(s, moves)
  {
    var moves := TwoContendersLose(s, i, j, Quiet(j));
  }

  /** A revision beside a new sign-in to the settings being revised: both succeed, and the sign-in left is bound to the old settings. */
  lemma RevisionBesideSignInLoses(s: State, i: nat, j: nat)
    requires Initial(s) && !s.record.ApiKey? && Revising(s, i) && StartsAdd(s, j) && s.active == Some(s.commands[j].config)
    ensures exists moves :: var t := Run(s, moves);
              && NoneFails(moves) && Loses(s, moves) && t.active == Some(s.commands[i].config) && t.record.SignIn?
              && t.commands == s.commands[i := Finished(Activated)][j := Finished(Activated)]
  {
    hide Step, Run, Tidy;
    ReadsFirst(s, i);
    var s1 := Become(s, i, HasRead(s, i));
    Writes(s1, i);
    var s2 := Wrote(s1, i);
    ReadsFirst(s2, j);
    var s3 := Become(s2, j, HasRead(s2, j));
    Activates(s3, j);
    var s4 := Run(s3, [Quiet(j), Quiet(j)]);
    assert s4.used == s.used by { assert s.active.value in s.used; }
    Commits(s4, i);
    var (a, b, c, d) := ([Quiet(i), Quiet(i)], [Quiet(i)], [Quiet(j), Quiet(j)], [Quiet(j), Quiet(j)]);
    RunIsSteps(s, a, b);
    RunIsSteps(s, a + b, c);
    RunIsSteps(s, a + b + c, d);
    RunIsSteps(s, a + b + c + d, [Quiet(i)]);
    var (moves, t) := (a + b + c + d + [Quiet(i)], Run(s4, [Quiet(i)]));
    assert Run(s, moves) == t && NoneFails(moves);
    assert t.commands == s.commands[i := Finished(Activated)][j := Finished(Activated)];
  }

  lemma Commits(s: State, i: nat)
    requires i in s.commands && s.commands[i].AddStored? && Allowed(s, s.commands[i].config, s.commands[i].replace)
    ensures var t := Run(s, [Quiet(i)]);
            t.active == Some(s.commands[i].config) && t.record == s.record && t.commands == s.commands[i := Finished(Activated)]
  {
    RunOne(s, Quiet(i));
  }

  /** An add that goes back to settings used before is always refused, and beside a refresh for those settings it loses the sign-in. */
  lemma RefreshForOldSettingsLoses(s: State, i: nat, r: nat)
    requires Initial(s) && Usable(s) && Overwrites(s, i) && s.commands[i].config in s.used && StartsRefresh(s, r, s.commands[i].config)
    ensures exists moves :: NoneFails(moves) && Loses(s, moves)
  {
    var moves := RefreshedOverwriteLoses(s, i, r, Quiet(i));
  }

  // ----- One command running alone -----

  /** What an undone add puts back: the sign-in an existing connection had, bound to its settings, or none. */
  function PutBack(start: State): Record { Restored(start.active, SignedIn(start.record)) }

  /** How far an add running alone has come; `tidy` when nothing that raised had landed. */
  ghost predicate Alone(start: State, s: State, id: nat, tidy: bool)
    requires StartsAdd(start, id)
  {
    var config := start.commands[id].config;
    && id in s.commands
    && (s.active == start.active || (s.active == Some(config) && !tidy) || s.commands[id] == Finished(Activated))
    && match s.commands[id]
       case AddStart(_, _) => s == start
       case AddKnows(c, _, existing) => s.record == start.record && s.active == start.active && existing == start.active && c == config
       case AddRead(c, _, existing, previous) =>
         && s.record == start.record && s.active == start.active && existing == start.active && c == config
         && previous == SignedIn(start.record) && !s.record.ApiKey?
       case AddStored(c, _, existing, previous) =>
         && s.record == SignIn(Added(id), config) && s.active == start.active && existing == start.active && c == config
         && previous == SignedIn(start.record) && !start.record.ApiKey?
       case AddFailing(c, _, existing, previous) =>
         && s.record == SignIn(Added(id), config) && existing == start.active && c == config
         && previous == SignedIn(start.record) && !start.record.ApiKey?
       case Finished(Refused) => s.record == start.record && s.active == start.active
       case Finished(Activated) => s.record == SignIn(Added(id), config) && s.active == Some(config) && !start.record.ApiKey?
       case Finished(Undone) => s.record == PutBack(start) && !start.record.ApiKey?
       case Finished(UndoRaised) => s.record == SignIn(Added(id), config) && !start.record.ApiKey?
       case _ => false
  }

  ghost predicate NothingLands(moves: seq<Move>) { forall move :: move in moves ==> !move.landed }

  lemma {:induction false} AloneThroughout(start: State, s: State, id: nat, moves: seq<Move>, tidy: bool)
    requires StartsAdd(start, id) && (tidy ==> NothingLands(moves))
    requires Alone(start, s, id, tidy) && forall move :: move in moves ==> move.id == id
    ensures Alone(start, Run(s, moves), id, tidy)
    decreases |moves|
  {
    if moves != [] {
      assert moves[0].id == id && moves[0] in moves;
      AloneStep(start, s, id, moves[0], tidy);
      hide Step, Alone;
      AloneThroughout(start, Step(s, moves[0]), id, moves[1..], tidy);
    }
  }

  lemma AloneStep(start: State, s: State, id: nat, move: Move, tidy: bool)
    requires StartsAdd(start, id) && Alone(start, s, id, tidy) && move.id == id && (tidy ==> !move.landed)
    ensures Alone(start, Step(s, move), id, tidy)
  {
    hide RemoveStep, RefreshStep;
  }

  /** Alone, a refused add changes nothing, an activated one holds its own pair, and an undone one puts back the sign-in an existing
      connection had or none. The connection ends unusable exactly when new settings landed before the undo, or when the undo raised
      over an active plan connection with other settings. */
  lemma AddAlone(start: State, id: nat, moves: seq<Move>)
    requires StartsAdd(start, id) && start.commands[id].config.plan
    requires forall move :: move in moves ==> move.id == id
    ensures var (s, config) := (Run(start, moves), start.commands[id].config);
            && id in s.commands
            && (s.commands[id] == Finished(Refused) ==> s.record == start.record && s.active == start.active)
            && (s.commands[id] == Finished(Activated) ==> s.record == SignIn(Added(id), config) && s.active == Some(config))
            && (s.commands[id] == Finished(Undone) ==> s.record == PutBack(start) && s.active in {start.active, Some(config)})
            && (s.commands[id] == Finished(Undone) && NothingLands(moves) ==> s.active == start.active)
            && (Usable(start) && s.commands[id].Finished? ==>
                  (!Usable(s) <==>
                    || (s.commands[id] == Finished(Undone) && s.active != start.active)
                    || (s.commands[id] == Finished(UndoRaised) && s.active == start.active
                        && start.active.Some? && start.active.value.plan && start.active.value != config)))
            && (start.record.ApiKey? ==> s.record == start.record)
  {
    AloneThroughout(start, start, id, moves, false);
    if NothingLands(moves) { AloneThroughout(start, start, id, moves, true); }
    hide Run, Step;
  }

  lemma RunFive(s: State, moves: seq<Move>)
    requires |moves| == 5
    ensures Run(s, moves) == Step(Step(Step(Step(Step(s, moves[0]), moves[1]), moves[2]), moves[3]), moves[4])
  {
    hide Step;
    RunThree(s, moves[0], moves[1], moves[2]);
    RunTwo(Run(s, moves[..3]), moves[3], moves[4]);
    assert moves[..3] == [moves[0], moves[1], moves[2]] && moves[3..] == [moves[3], moves[4]] && moves == moves[..3] + moves[3..];
    RunIsSteps(s, moves[..3], moves[3..]);
  }

  /** All moves are this command's. */
  predicate Solo(moves: seq<Move>, id: nat) { forall k :: 0 <= k < |moves| ==> moves[k].id == id }

  /** The connection at the start, or a failing call, has the add refused before it writes. */
  predicate TurnedAway(start: State, id: nat, moves: seq<Move>)
    requires StartsAdd(start, id) && |moves| == 5
  {
    || moves[0].fails || moves[1].fails || moves[2].fails || start.record.ApiKey?
    || (start.active.Some? && start.active.value != start.commands[id].config && !start.commands[id].replace)
  }

  lemma AddWrites(start: State, id: nat, moves: seq<Move>)
    requires StartsAdd(start, id) && |moves| == 5 && Solo(moves, id)
    ensures var (c, t) := (start.commands[id], Step(Step(Step(start, moves[0]), moves[1]), moves[2]));
            t == if TurnedAway(start, id, moves) then Become(start, id, Finished(Refused))
                 else Become(start, id, AddStored(c.config, c.replace, start.active, SignedIn(start.record)))
                      .(record := SignIn(Added(id), c.config), addWrites := start.addWrites + 1)
  {
    hide RemoveStep, RefreshStep, SignedIn;
    var s1 := Step(start, moves[0]);
    assert s1.commands[id].Finished? <==> moves[0].fails;
    var s2 := Step(s1, moves[1]);
    assert s2 == if s2.commands[id].Finished? then Become(start, id, Finished(Refused))
                 else Become(start, id, AddRead(start.commands[id].config, start.commands[id].replace, start.active, SignedIn(start.record)));
  }

  /** Alone, each call of an add decides its end: refused before it writes, or activated when the activation is allowed and does not raise,
      and otherwise undone, unless the undo raises too. */
  lemma AddEnds(start: State, id: nat, moves: seq<Move>)
    requires StartsAdd(start, id) && |moves| == 5 && Solo(moves, id)
    ensures var (t, config, replace) := (Run(start, moves), start.commands[id].config, start.commands[id].replace);
            var allowed := Allowed(start, config, replace);
            && id in t.commands && t.commands == start.commands[id := t.commands[id]] && t.lock == start.lock
            && if TurnedAway(start, id, moves) then t == start.(commands := t.commands) && t.commands[id] == Finished(Refused)
               else if allowed && !moves[3].fails then
                 t.commands[id] == Finished(Activated) && t.active == Some(config) && t.record == SignIn(Added(id), config)
               else
                 && t.active == (if allowed && moves[3].landed then Some(config) else start.active)
                 && if moves[4].fails then t.commands[id] == Finished(UndoRaised) && t.record == SignIn(Added(id), config)
                    else t.commands[id] == Finished(Undone) && t.record == PutBack(start)
  {
    RunFive(start, moves);
    AddWrites(start, id, moves);
    var written := Step(Step(Step(start, moves[0]), moves[1]), moves[2]);
    hide Run, RemoveStep, RefreshStep, TurnedAway, SignedIn;
    if TurnedAway(start, id, moves) { assert Step(written, moves[3]) == written; } else {
      hide Allowed;
      var s4 := Step(written, moves[3]);
      assert s4.record == written.record && s4.lock == start.lock && s4.commands == start.commands[id := s4.commands[id]];
    }
  }

  /** Alone, each call of a removal decides its end: not removed when the connections, a plan's stored sign-in, the disabling or the delete
      of what it read fails, and otherwise removed. A failing read of the sign-in of anything but a plan only keeps that sign-in. */
  lemma RemovalEnds(start: State, id: nat, moves: seq<Move>)
    requires id in start.commands && start.commands[id].RemoveStart? && start.lock.None? && |moves| == 5 && Solo(moves, id)
    ensures var (t, unread) := (Run(start, moves), start.commands[id := Finished(NotRemoved)]);
            var deletes := start.active.Some? && start.record.SignIn? && !moves[2].fails;
            && t.lock.None? && t.used == start.used && t.addWrites == start.addWrites
            && if moves[0].fails || (moves[2].fails && start.active.Some? && start.active.value.plan) then t == start.(commands := unread)
               else if moves[3].fails then
                 t.commands == unread && t.record == start.record && t.active == if moves[3].landed then None else start.active
               else if deletes && moves[4].fails then t.commands == unread && t.record == start.record && t.active.None?
               else t.commands == start.commands[id := Finished(Removed)] && t.active.None? && t.record == if deletes then Absent else start.record
  {
    RunFive(start, moves);
    hide Run, AddStep, RefreshStep;
    var s1 := Step(start, moves[0]);
    var s2 := Step(s1, moves[1]);
    var s3 := Step(s2, moves[2]);
    var s4 := Step(s3, moves[3]);
  }

  /** Alone, a refresh is refused when its read fails or finds no sign-in for the settings it serves; otherwise it swaps the pair it read for
      a new one under the same binding, unless none is due. */
  lemma RefreshEnds(start: State, id: nat, moves: seq<Move>)
    requires id in start.commands && start.commands[id].RefreshStart? && start.lock.None? && |moves| == 3 && Solo(moves, id)
    ensures var (t, serving) := (Run(start, moves), start.commands[id].serving);
            if moves[1].fails || !start.record.SignIn? || start.record.binding != serving
            then t == Become(start, id, Finished(Refused))
            else t == Become(start, id, Finished(Refreshed)).(record := if moves[2].fails then start.record else SignIn(Rotated(id), serving))
  {
    assert moves == [moves[0], moves[1], moves[2]];
    RunThree(start, moves[0], moves[1], moves[2]);
    hide Run, AddStep, RemoveStep;
    var s1 := Step(start, moves[0]);
    var s2 := Step(s1, moves[1]);
  }

  /** Alone and with nothing failing, a removal takes the connection and its sign-in away and leaves an API key. */
  lemma RemovalAlone(start: State, id: nat)
    requires Initial(start) && id in start.commands && start.commands[id].RemoveStart? && start.active.Some?
    ensures var t := Run(start, seq(5, _ => Quiet(id)));
            && t.commands == start.commands[id := Finished(Removed)] && t.lock.None?
            && t.active.None? && t.used == start.used && t.record == if start.record.SignIn? then Absent else start.record
  {
    hide Run, Step;
    RemovalEnds(start, id, seq(5, _ => Quiet(id)));
  }
}
