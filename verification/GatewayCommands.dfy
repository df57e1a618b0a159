/** The setup and pool commands as they run: write, try the rest, undo what is proven to have failed. */
module GatewayCommands {
  import opened Wrappers
  import opened GatewaySetup
  import G = GuardrailDocument

  class Gateway {
    var settings: Slot<Settings>
    var guardrail: Slot<G.Item>
    var catalog: Slot<Catalog>
    var alias: nat

    ghost function State(): State
      reads this
    {
      GatewaySetup.State.State(settings, guardrail, catalog, alias)
    }

    constructor (settings: Slot<Settings>, guardrail: Slot<G.Item>, catalog: Slot<Catalog>, alias: nat)
      ensures State() == GatewaySetup.State.State(settings, guardrail, catalog, alias)
    {
      this.settings, this.guardrail, this.catalog, this.alias := settings, guardrail, catalog, alias;
    }

    /** One write of the catalog; the result says whether it raised. */
    method WriteCatalog(value: Catalog, write: Write) returns (raised: bool)
      modifies this`catalog
      ensures catalog == Put(old(catalog), Encode(value), write) && raised == !write.Landed?
    {
      if !write.Refused? { catalog := catalog.(content := Some(Encode(value))); }
      raised := !write.Landed?;
    }

    method ApplyCatalog(update: Update, faults: CatalogFaults) returns (raised: bool)
      modifies this`catalog
      ensures (catalog, raised) == Apply(old(catalog), update, faults)
    {
      if faults.refused { return true; }
      if update.Changed() {
        raised := WriteCatalog(update.updated, faults.write);
        if raised { return; }
      }
      raised := faults.snapshotRaises;
    }

    /** The transaction, and the fresh read that settles an unacknowledged COMMIT. */
    method ActivateAlias(revision: nat, commit: Commit) returns (outcome: Outcome)
      requires Truthful(commit)
      modifies this`alias
      ensures outcome == Activate(commit) && alias == if Committed(commit) then revision else old(alias)
    {
      if commit.bodyRaises { return Failed; }
      if commit.landed { alias := revision; }
      if commit.acknowledged && !commit.teardownRaises { return Done; }
      if !commit.readable { return ActivationUnknown; }
      if commit.landed { return Done; }
      outcome := if !commit.acknowledged then Failed else ActivationUnknown;
    }

    method RollBackCatalog(update: Update, faults: CatalogFaults) returns (proven: bool)
      modifies this`catalog
      ensures (catalog, proven) == Rollback(old(catalog), update, faults)
    {
      if !update.Changed() { return true; }
      if update.original.None? {
        if catalog.content.None? { return true; }
        var current := Load(catalog, faults.loadRaises);
        if current != Some(update.updated) { return false; }
        if !faults.undo.Refused? { catalog := Slot(false, None); }
        return catalog.content.None?;
      }
      var current := Load(catalog, faults.loadRaises);
      if current.None? { return false; }
      if current == update.original { return true; }
      if current != Some(update.updated) { return false; }
      var raised := WriteCatalog(update.original.value, faults.undo);
      var restored := Load(catalog, faults.reloadRaises);
      proven := restored == update.original;
    }

    /** The catalog and the alias, under the catalog lock. */
    method RunCatalogWindow(update: Update, revision: nat, faults: CatalogFaults) returns (outcome: Outcome)
      requires Truthful(faults.commit)
      modifies this`catalog, this`alias
      ensures (State(), outcome) == CatalogWindow(old(State()), update, revision, faults)
    {
      hide Rollback;
      var raised := ApplyCatalog(update, faults);
      outcome := Failed;
      if !raised { outcome := ActivateAlias(revision, faults.commit); }
      if outcome.Failed? {
        if faults.edit.Some? { catalog := catalog.(content := faults.edit.value); }
        var proven := RollBackCatalog(update, faults);
        if !proven { outcome := CompensationUnknown(CatalogFile); }
      }
    }

    method CertifyPool(update: Update, revision: nat, observedMatches: bool, activationNeeded: bool, faults: CatalogFaults)
      returns (report: PoolReport)
      requires Truthful(faults.commit)
      modifies this`catalog, this`alias
      ensures (State(), report) == PoolCertify(old(State()), update, revision, observedMatches, activationNeeded, faults)
    {
      hide CatalogWindow;
      if !observedMatches && activationNeeded { return PoolReport.Refused; }
      var outcome := RunCatalogWindow(update, revision, faults);
      match outcome {
        case Done => report := Changed;
        case Failed => report := NotCommitted;
        case ActivationUnknown => report := AliasUnknown;
        case CompensationUnknown(_) => report := CatalogUnknown;
      }
    }

    /** Reads, edits, publishes and inspects the guardrail file. */
    method MutateGuardrails(plan: Plan, valid: G.Item -> bool, faults: FileFaults) returns (raised: bool)
      modifies this`guardrail
      ensures (guardrail, raised) == ApplyGuardrails(old(guardrail), plan, valid, faults)
    {
      hide LandedAsSelected, SetupCreatedEmpty, Edit;
      var document := EMPTY_DOCUMENT;
      if guardrail.content.Some? {
        if guardrail.content.value.parsed.None? || !valid(guardrail.content.value.parsed.value) { return true; }
        document := guardrail.content.value.parsed.value;
      }
      var edited := Edit(document, plan);
      if edited.Err? || !valid(edited.value) { return true; }
      if SetupCreatedEmpty(edited.value) && !guardrail.isLink {
        if !faults.write.Refused? { guardrail := guardrail.(content := None); }
      } else {
        if !faults.write.Refused? { guardrail := guardrail.(content := Some(Encode(edited.value))); }
      }
      if !faults.write.Landed? || faults.inspectRaises { return true; }
      raised := !LandedAsSelected(guardrail, plan);
    }

    method RunInside(update: Update, revision: nat, faults: SetupFaults) returns (outcome: Outcome)
      requires Truthful(faults.catalog.commit)
      modifies this`catalog, this`alias
      ensures (State(), outcome) == Inside(old(State()), update, revision, faults)
    {
      hide CatalogWindow;
      if faults.preludeRaises { return Failed; }
      outcome := RunCatalogWindow(update, revision, faults.catalog);
      if faults.lateRaises && (outcome.Done? || outcome.ActivationUnknown?) { outcome := Failed; }
    }

    /** Keeps the selected guardrail file when the alias may have been activated; puts it back on every other exception. */
    method RunGuardrailWindow(plan: Option<Plan>, valid: G.Item -> bool, update: Update, revision: nat, faults: SetupFaults)
      returns (outcome: Outcome)
      requires Truthful(faults.catalog.commit)
      modifies this`guardrail, this`catalog, this`alias
      ensures (State(), outcome) == GuardrailWindow(old(State()), plan, valid, update, revision, faults)
    {
      hide ApplyGuardrails, Inside;
      if faults.guardrail.readRaises { return Failed; }
      var original := guardrail.content;
      var raised := false;
      if plan.Some? { raised := MutateGuardrails(plan.value, valid, faults.guardrail); }
      outcome := Failed;
      if !raised { outcome := RunInside(update, revision, faults); }
      if outcome.Failed? || outcome.CompensationUnknown? {
        if !faults.guardrail.restore.Refused? { guardrail := guardrail.(content := original); }
        if !faults.guardrail.restore.Landed? { outcome := CompensationUnknown(GuardrailFile); }
      }
    }

    method Configure(budget: real, plan: Option<Plan>, valid: G.Item -> bool, update: Update, revision: nat, faults: SetupFaults)
      returns (outcome: Outcome)
      requires Truthful(faults.catalog.commit)
      modifies this
      ensures (State(), outcome) == Setup(old(State()), budget, plan, valid, update, revision, faults)
    {
      hide GuardrailWindow;
      if faults.settings.readRaises { return Failed; }
      var original := settings.content;
      outcome := Failed;
      var current := if original.None? then Some(Settings(None, 0)) else original.value.parsed;
      if current.Some? {
        if !faults.settings.write.Refused? { settings := settings.(content := Some(Encode(current.value.(budget := Some(budget))))); }
        if faults.settings.write.Landed? { outcome := RunGuardrailWindow(plan, valid, update, revision, faults); }
      }
      if outcome.Failed? || outcome.CompensationUnknown? {
        if !faults.settings.restore.Refused? { settings := settings.(content := original); }
        if !faults.settings.restore.Landed? { outcome := CompensationUnknown(SettingsFile); }
      }
    }
  }
}
