/** Compensating updates of the settings file, guardrail file, catalog and alias authority. */
module GatewaySetup {
  import opened Wrappers
  import G = GuardrailDocument

  /** File bytes: what they parse to, if anything, and a layout that parsing forgets. */
  datatype Text<V> = Text(parsed: Option<V>, layout: nat)

  /** A configured path: a regular name or a symlink to one, and the content behind it. */
  datatype Slot<V> = Slot(isLink: bool, content: Option<Text<V>>)

  datatype Settings = Settings(budget: Option<real>, others: nat)

  datatype Catalog = Catalog(entries: nat)

  datatype State = State(settings: Slot<Settings>, guardrail: Slot<G.Item>, catalog: Slot<Catalog>, alias: nat)

  /** How one atomic write or unlink ends; an interrupt can follow the rename. */
  datatype Write = Landed | Refused | LandedThenRaised

  datatype Resource = SettingsFile | GuardrailFile | CatalogFile

  datatype Outcome = Done | Failed | ActivationUnknown | CompensationUnknown(resource: Resource)

  function Encode<V>(value: V): Text<V> { Text(Some(value), 0) }

  /** An atomic write: through a symlink, never over it. */
  function Put<V>(slot: Slot<V>, text: Text<V>, write: Write): Slot<V> {
    if write.Refused? then slot else slot.(content := Some(text))
  }

  /** Removes the file behind the path and leaves a symlink in place. */
  function Empty<V>(slot: Slot<V>, write: Write): Slot<V> {
    if write.Refused? then slot else slot.(content := None)
  }

  function Load<V>(slot: Slot<V>, raises: bool): Option<V> {
    if raises || slot.content.None? then None else slot.content.value.parsed
  }

  // ----- Alias activation: one SQLite transaction whose COMMIT may be unacknowledged -----

  datatype Commit = Commit(bodyRaises: bool, landed: bool, acknowledged: bool, teardownRaises: bool, readable: bool)

  ghost predicate Truthful(commit: Commit) { commit.acknowledged ==> commit.landed }

  /** What a fresh read proves about the commit. */
  function Activate(commit: Commit): Outcome {
    if commit.bodyRaises then Failed
    else if commit.acknowledged && !commit.teardownRaises then Done
    else if !commit.readable then ActivationUnknown
    else if commit.landed then Done
    else if !commit.acknowledged then Failed
    else ActivationUnknown
  }

  function Committed(commit: Commit): bool { !commit.bodyRaises && commit.landed }

  /** A reported result is the truth, and it is withheld only when COMMIT was started and nothing could be read. */
  lemma ActivationTellsTheTruth(commit: Commit)
    requires Truthful(commit)
    ensures Activate(commit).Done? ==> Committed(commit)
    ensures Activate(commit).Failed? ==> !Committed(commit)
    ensures Activate(commit).ActivationUnknown?
            <==> !commit.bodyRaises && !commit.readable && !(commit.acknowledged && !commit.teardownRaises)
  {
  }

  // ----- Catalog: planned update, application and proven rollback -----

  datatype Update = Update(original: Option<Catalog>, updated: Catalog) {
    predicate Changed() { original != Some(updated) }
  }

  /** `edit` is a change made behind the catalog lock before the rollback looks. */
  datatype CatalogFaults = CatalogFaults(refused: bool, write: Write, snapshotRaises: bool, commit: Commit,
                                         edit: Option<Option<Text<Catalog>>>, loadRaises: bool, undo: Write, reloadRaises: bool)

  function Apply(slot: Slot<Catalog>, update: Update, faults: CatalogFaults): (r: (Slot<Catalog>, bool)) {
    if faults.refused then (slot, true)
    else if !update.Changed() then (slot, faults.snapshotRaises)
    else (Put(slot, Encode(update.updated), faults.write), !faults.write.Landed? || faults.snapshotRaises)
  }

  function Edited(slot: Slot<Catalog>, faults: CatalogFaults): Slot<Catalog> {
    if faults.edit.Some? then slot.(content := faults.edit.value) else slot
  }

  /** The slot after a rollback, and whether the rollback is proven. Only the removal unlinks the configured path itself. */
  function Rollback(slot: Slot<Catalog>, update: Update, faults: CatalogFaults): (Slot<Catalog>, bool) {
    if !update.Changed() then (slot, true)
    else if update.original.None? then
      if slot.content.None? then (slot, true)
      else if Load(slot, faults.loadRaises) != Some(update.updated) then (slot, false)
      else if faults.undo.Refused? then (slot, false)
      else (Slot(false, None), true)
    else
      var current := Load(slot, faults.loadRaises);
      if current.None? then (slot, false)
      else if current == update.original then (slot, true)
      else if current != Some(update.updated) then (slot, false)
      else
        var after := Put(slot, Encode(update.original.value), faults.undo);
        (after, Load(after, faults.reloadRaises) == update.original)
  }

  /** Applies the catalog, activates the alias, and rolls back only what is proven not to have committed. */
  function CatalogWindow(s: State, update: Update, revision: nat, faults: CatalogFaults): (State, Outcome) {
    var (applied, raised) := Apply(s.catalog, update, faults);
    var outcome := if raised then Failed else Activate(faults.commit);
    var t := s.(catalog := applied, alias := if !raised && Committed(faults.commit) then revision else s.alias);
    if !outcome.Failed? then (t, outcome) else
    var (restored, proven) := Rollback(Edited(applied, faults), update, faults);
    (t.(catalog := restored), if proven then Failed else CompensationUnknown(CatalogFile))
  }

  ghost predicate SameCatalog(left: Slot<Catalog>, right: Slot<Catalog>) {
    left.isLink == right.isLink && Load(left, false) == Load(right, false) && (left.content.None? <==> right.content.None?)
  }

  /** The plan was read from this slot under the lock. */
  ghost predicate PlannedFrom(update: Update, slot: Slot<Catalog>) {
    if slot.content.None? then update.original.None? else update.original.Some? && slot.content.value.parsed == update.original
  }

  /** No file behind a symlink: the one catalog whose rollback takes the symlink with it. */
  predicate Dangling(slot: Slot<Catalog>) { slot.isLink && slot.content.None? }

  /** The rollback finds the planned catalog where none was before, and can remove it. */
  predicate Removed(slot: Slot<Catalog>, update: Update, faults: CatalogFaults) {
    && update.original.None? && !faults.undo.Refused?
    && Load(Edited(Apply(slot, update, faults).0, faults), faults.loadRaises) == Some(update.updated)
  }

  ghost predicate CatalogHolds(slot: Slot<Catalog>, update: Update) { Load(slot, false) == Some(update.updated) }

  /** A rollback changes the catalog only where it finds the planned one, and is proven exactly when it has seen the original back: no file
      where none was, or a reading of what was there. */
  lemma RollbackProves(slot: Slot<Catalog>, update: Update, faults: CatalogFaults)
    ensures var (after, proven) := Rollback(slot, update, faults);
            && (after != slot ==> update.Changed() && Load(slot, faults.loadRaises) == Some(update.updated) && !faults.undo.Refused?)
            && (!update.Changed() ==> proven)
            && (update.Changed() && update.original.None? ==> (proven <==> after.content.None?))
            && (update.Changed() && update.original.Some? ==>
                  (proven <==> && Load(slot, faults.loadRaises) in {update.original, Some(update.updated)}
                               && Load(after, Load(slot, false) != update.original && faults.reloadRaises) == update.original))
  {
  }

  /** With nothing refused in the undo and no edit by anyone else, a failure is always proven. */
  lemma QuietRollbackProves(s: State, update: Update, revision: nat, faults: CatalogFaults)
    requires Truthful(faults.commit) && PlannedFrom(update, s.catalog)
    requires faults.edit.None? && faults.undo.Landed? && !faults.loadRaises && !faults.reloadRaises
    ensures !CatalogWindow(s, update, revision, faults).1.CompensationUnknown?
  {
    RollbackProves(Edited(Apply(s.catalog, update, faults).0, faults), update, faults);
  }

  /** What anyone else wrote meanwhile survives the rollback, unless it is the planned catalog itself. */
  lemma ForeignEditSurvives(s: State, update: Update, revision: nat, faults: CatalogFaults)
    requires faults.edit.Some?
    ensures var (t, outcome) := CatalogWindow(s, update, revision, faults);
            var edited := s.catalog.(content := faults.edit.value);
            (outcome.Failed? || outcome.CompensationUnknown?) && Load(edited, false) != Some(update.updated) ==> t.catalog == edited
  {
    RollbackProves(Edited(Apply(s.catalog, update, faults).0, faults), update, faults);
  }

  /** A proven failure leaves alias and catalog as planned from; anything else leaves both new or says which is unknown. */
  lemma CatalogAllOrNothing(s: State, update: Update, revision: nat, faults: CatalogFaults)
    requires Truthful(faults.commit) && PlannedFrom(update, s.catalog)
    requires !update.Changed() ==> faults.edit.None?
    ensures var (t, outcome) := CatalogWindow(s, update, revision, faults);
            && t.settings == s.settings && t.guardrail == s.guardrail
            && (outcome.Done? ==> CatalogHolds(t.catalog, update) && t.catalog.isLink == s.catalog.isLink && t.alias == revision)
            && (outcome.ActivationUnknown? ==> CatalogHolds(t.catalog, update) && t.catalog.isLink == s.catalog.isLink
                                               && t.alias in {s.alias, revision})
            && (outcome.CompensationUnknown? ==> t.alias == s.alias && outcome.resource == CatalogFile)
            && (outcome.Failed? ==> t.alias == s.alias
                                    && (SameCatalog(t.catalog, s.catalog) <==> !(Dangling(s.catalog) && Removed(s.catalog, update, faults))))
  {
    ActivationTellsTheTruth(faults.commit);
  }

  /** Setup over a dangling catalog link loses the link when activation fails, and still reports a proven failure. */
  lemma DanglingCatalogLinkIsLost()
    ensures exists s: State, update: Update, faults: CatalogFaults ::
              && Truthful(faults.commit) && PlannedFrom(update, s.catalog)
              && var (t, outcome) := CatalogWindow(s, update, 1, faults);
                 outcome.Failed? && s.catalog.isLink && !t.catalog.isLink
  {
    var s := State(Slot(false, None), Slot(false, None), Slot(true, None), 0);
    var update := Update(None, Catalog(7));
    var faults := CatalogFaults(false, Landed, false, Commit(true, false, false, false, true), None, false, Landed, false);
    var r := CatalogWindow(s, update, 1, faults);
    assert Truthful(faults.commit) && PlannedFrom(update, s.catalog) && r.1.Failed? && !r.0.catalog.isLink;
  }

  // ----- Certified pool -----

  datatype PoolReport = Refused | Changed | NotCommitted | AliasUnknown | CatalogUnknown

  /** The pool command: a stale digest is refused before anything changes. */
  function PoolCertify(s: State, update: Update, revision: nat, observedMatches: bool, activationNeeded: bool, faults: CatalogFaults)
    : (State, PoolReport)
  {
    if !observedMatches && activationNeeded then (s, PoolReport.Refused) else
    var (t, outcome) := CatalogWindow(s, update, revision, faults);
    (t, match outcome
        case Done => Changed
        case Failed => NotCommitted
        case ActivationUnknown => AliasUnknown
        case CompensationUnknown(_) => CatalogUnknown)
  }

  /** Catalog and alias end both new, both old, or reported unknown; exactly a stale digest that would change the alias is refused. */
  lemma PoolIsAllOrNothing(s: State, update: Update, revision: nat, observedMatches: bool, activationNeeded: bool, faults: CatalogFaults)
    requires Truthful(faults.commit) && PlannedFrom(update, s.catalog) && update.original.Some?
    requires !update.Changed() ==> faults.edit.None?
    ensures var (t, report) := PoolCertify(s, update, revision, observedMatches, activationNeeded, faults);
            && t.settings == s.settings && t.guardrail == s.guardrail
            && (report.Changed? ==> CatalogHolds(t.catalog, update) && t.alias == revision)
            && (report.NotCommitted? ==> SameCatalog(t.catalog, s.catalog) && t.alias == s.alias)
            && (report.Refused? <==> !observedMatches && activationNeeded) && (report.Refused? ==> t == s)
            && (report.AliasUnknown? ==> CatalogHolds(t.catalog, update) && t.alias in {s.alias, revision})
            && (report.CatalogUnknown? ==> t.alias == s.alias)
            && (faults.edit.None? && faults.undo.Landed? && !faults.loadRaises && !faults.reloadRaises ==> !report.CatalogUnknown?)
  {
    CatalogAllOrNothing(s, update, revision, faults);
    if faults.edit.None? && faults.undo.Landed? && !faults.loadRaises && !faults.reloadRaises {
      QuietRollbackProves(s, update, revision, faults);
    }
  }

  /** With nothing refused, a certification that is not stale, or would leave the alias alone, ends with both new. */
  lemma QuietPoolChanges(s: State, update: Update, revision: nat, observedMatches: bool, activationNeeded: bool)
    requires PlannedFrom(update, s.catalog) && update.original.Some? && (observedMatches || !activationNeeded)
    ensures var (t, report) := PoolCertify(s, update, revision, observedMatches, activationNeeded, QUIET_CATALOG);
            && report.Changed? && CatalogHolds(t.catalog, update) && t.alias == revision
            && t.catalog.isLink == s.catalog.isLink && t.settings == s.settings && t.guardrail == s.guardrail
  {
    CatalogAllOrNothing(s, update, revision, QUIET_CATALOG);
  }

  // ----- Guardrail file -----

  datatype Plan = TurnOff(pair: G.Pair) | TurnOn(setup: G.Setup) {
    function Target(): G.Pair { if TurnOff? then pair else setup.pair }
  }

  datatype FileFaults = FileFaults(readRaises: bool, write: Write, inspectRaises: bool, restore: Write)

  const EMPTY_DOCUMENT: G.Item := map["adapters" := G.Arr([]), "policies" := G.Arr([])]

  function Edit(document: G.Item, plan: Plan): G.Result<G.Item> {
    if plan.TurnOff? then G.DisableOwned(document, plan.pair) else G.EnableStandard(document, plan.setup)
  }

  predicate SetupCreatedEmpty(document: G.Item) {
    && document.Keys <= {"adapters", "policies"}
    && G.ObjectList(document, "adapters") == G.Ok([]) && G.ObjectList(document, "policies") == G.Ok([])
  }

  /** An emptied regular file is removed; an emptied symlink target is written through. */
  function Publish(slot: Slot<G.Item>, document: G.Item, write: Write): Slot<G.Item> {
    if SetupCreatedEmpty(document) && !slot.isLink then Empty(slot, write) else Put(slot, Encode(document), write)
  }

  /** The document an edit starts from; `valid` is the engine's own acceptance of a document. */
  function Authored(slot: Slot<G.Item>, valid: G.Item -> bool): Option<G.Item> {
    if slot.content.None? then Some(EMPTY_DOCUMENT)
    else if slot.content.value.parsed.Some? && valid(slot.content.value.parsed.value) then slot.content.value.parsed
    else None
  }

  function Landing(slot: Slot<G.Item>, pair: G.Pair): G.Result<G.Mode> {
    if slot.content.None? then G.Ok(G.Off)
    else if slot.content.value.parsed.None? then G.Err(G.Malformed)
    else G.Inspect(slot.content.value.parsed.value, pair)
  }

  /** What the plan publishes from this slot when it is accepted. */
  function Planned(slot: Slot<G.Item>, plan: Option<Plan>, valid: G.Item -> bool): Option<Slot<G.Item>> {
    if plan.None? then Some(slot) else
    var authored := Authored(slot, valid);
    if authored.None? then None else
    var edited := Edit(authored.value, plan.value);
    if edited.Err? || !valid(edited.value) then None else Some(Publish(slot, edited.value, Landed))
  }

  predicate LandedAsSelected(slot: Slot<G.Item>, plan: Plan) {
    var landing := Landing(slot, plan.Target());
    landing.Ok? && if plan.TurnOff? then landing.value.Off? else landing.value.Standard?
  }

  /** The slot after the mutation, and whether the mutation raised. */
  function ApplyGuardrails(slot: Slot<G.Item>, plan: Plan, valid: G.Item -> bool, faults: FileFaults): (Slot<G.Item>, bool) {
    var published := Planned(slot, Some(plan), valid);
    if published.None? then (slot, true) else
    var after := if faults.write.Refused? then slot else published.value;
    (after, !faults.write.Landed? || faults.inspectRaises || !LandedAsSelected(after, plan))
  }

  function Restore<V>(slot: Slot<V>, original: Option<Text<V>>, write: Write): Slot<V> {
    if original.None? then Empty(slot, write) else Put(slot, original.value, write)
  }

  // ----- The whole mutation window -----

  /** `lateRaises`: a report or the closing display raises after the catalog window. */
  datatype SetupFaults = SetupFaults(settings: FileFaults, guardrail: FileFaults, preludeRaises: bool, catalog: CatalogFaults, lateRaises: bool)

  function NewSettings(slot: Slot<Settings>, budget: real): Option<Slot<Settings>> {
    if slot.content.None? then Some(slot.(content := Some(Encode(Settings(Some(budget), 0)))))
    else if slot.content.value.parsed.None? then None
    else Some(slot.(content := Some(Encode(slot.content.value.parsed.value.(budget := Some(budget))))))
  }

  function SaveBudget(slot: Slot<Settings>, budget: real, faults: FileFaults): (Slot<Settings>, bool) {
    var saved := NewSettings(slot, budget);
    if saved.None? then (slot, true) else (if faults.write.Refused? then slot else saved.value, !faults.write.Landed?)
  }

  function Inside(s: State, update: Update, revision: nat, faults: SetupFaults): (State, Outcome) {
    if faults.preludeRaises then (s, Failed) else
    var (t, outcome) := CatalogWindow(s, update, revision, faults.catalog);
    (t, if faults.lateRaises && (outcome.Done? || outcome.ActivationUnknown?) then Failed else outcome)
  }

  function GuardrailWindow(s: State, plan: Option<Plan>, valid: G.Item -> bool, update: Update, revision: nat, faults: SetupFaults)
    : (State, Outcome)
  {
    if faults.guardrail.readRaises then (s, Failed) else
    var (slot, raised) := if plan.None? then (s.guardrail, false) else ApplyGuardrails(s.guardrail, plan.value, valid, faults.guardrail);
    var (t, outcome) := if raised then (s.(guardrail := slot), Failed) else Inside(s.(guardrail := slot), update, revision, faults);
    if outcome.Done? || outcome.ActivationUnknown? then (t, outcome)
    else (t.(guardrail := Restore(t.guardrail, s.guardrail.content, faults.guardrail.restore)),
          if faults.guardrail.restore.Landed? then outcome else CompensationUnknown(GuardrailFile))
  }

  /** The budget, then the guardrail file, then catalog and alias, undone outwards. */
  function Setup(s: State, budget: real, plan: Option<Plan>, valid: G.Item -> bool, update: Update, revision: nat, faults: SetupFaults)
    : (State, Outcome)
  {
    if faults.settings.readRaises then (s, Failed) else
    var (slot, raised) := SaveBudget(s.settings, budget, faults.settings);
    var (t, outcome) := if raised then (s.(settings := slot), Failed)
                        else GuardrailWindow(s.(settings := slot), plan, valid, update, revision, faults);
    if outcome.Done? || outcome.ActivationUnknown? then (t, outcome)
    else (t.(settings := Restore(t.settings, s.settings.content, faults.settings.restore)),
          if faults.settings.restore.Landed? then outcome else CompensationUnknown(SettingsFile))
  }

  /** Settings and guardrail file hold what the operator selected. */
  ghost predicate Selected(t: State, s: State, budget: real, plan: Option<Plan>, valid: G.Item -> bool) {
    Some(t.settings) == NewSettings(s.settings, budget) && Some(t.guardrail) == Planned(s.guardrail, plan, valid)
  }

  ghost predicate AllOrNothing(s: State, t: State, outcome: Outcome, budget: real, plan: Option<Plan>, valid: G.Item -> bool,
                               update: Update, revision: nat)
  {
    match outcome
    case Done => Selected(t, s, budget, plan, valid) && CatalogHolds(t.catalog, update) && t.alias == revision
    case ActivationUnknown => Selected(t, s, budget, plan, valid) && CatalogHolds(t.catalog, update) && t.alias in {s.alias, revision}
    case Failed => t.settings == s.settings && t.guardrail == s.guardrail && SameCatalog(t.catalog, s.catalog) && t.alias == s.alias
    case CompensationUnknown(resource) => true
  }

  /** Everything before the catalog window went through, so its outcome decides what is undone. */
  predicate Reached(s: State, budget: real, plan: Option<Plan>, valid: G.Item -> bool, faults: SetupFaults) {
    && !faults.settings.readRaises && !SaveBudget(s.settings, budget, faults.settings).1
    && !faults.guardrail.readRaises && (plan.Some? ==> !ApplyGuardrails(s.guardrail, plan.value, valid, faults.guardrail).1)
    && !faults.preludeRaises
  }

  /** A late exception undoes two files beside an authority that kept, or may have kept, the new revision. */
  predicate Strands(update: Update, outcome: Outcome, faults: SetupFaults) {
    faults.lateRaises && (outcome.Done? || (outcome.ActivationUnknown? && (Committed(faults.catalog.commit) || update.Changed())))
  }

  /** Publishing removes the file exactly when it is a regular one and nothing but two empty lists is left to write. */
  lemma PublishMeans(slot: Slot<G.Item>, document: G.Item)
    ensures var published := Publish(slot, document, Landed);
            && published.isLink == slot.isLink
            && (if && !slot.isLink && (forall key :: key in document ==> key == "adapters" || key == "policies")
                   && G.ObjectList(document, "adapters") == G.Ok([]) && G.ObjectList(document, "policies") == G.Ok([])
                then published.content.None? else Load(published, false) == Some(document))
  {
    hide G.ObjectList;
  }

  /** A plan is accepted exactly over a missing or acceptable document whose edit succeeds and is acceptable itself, and is then that edit
      published. */
  lemma PlannedExactly(slot: Slot<G.Item>, plan: Plan, valid: G.Item -> bool, published: Slot<G.Item>)
    ensures Planned(slot, Some(plan), valid) == Some(published)
            <==> exists document: G.Item, edited: G.Item ::
                   && (if slot.content.None? then document == map["adapters" := G.Arr([]), "policies" := G.Arr([])]
                       else slot.content.value.parsed == Some(document) && valid(document))
                   && (if plan.TurnOff? then G.DisableOwned(document, plan.pair) else G.EnableStandard(document, plan.setup)) == G.Ok(edited)
                   && valid(edited) && published == Publish(slot, edited, Landed)
  {
    hide SetupCreatedEmpty, G.DisableOwned, G.EnableStandard;
  }

  lemma AppliedOrUntouched(slot: Slot<G.Item>, plan: Plan, valid: G.Item -> bool, faults: FileFaults)
    ensures var (after, raised) := ApplyGuardrails(slot, plan, valid, faults);
            && after.isLink == slot.isLink
            && (!raised ==> Some(after) == Planned(slot, Some(plan), valid))
            && (raised ==> after == slot || Some(after) == Planned(slot, Some(plan), valid))
            && after == Written(slot, Some(plan), valid, faults)
  {
    hide Edit, SetupCreatedEmpty, LandedAsSelected, Authored;
  }

  lemma RestoreBrings<V>(slot: Slot<V>, original: Slot<V>, write: Write)
    requires slot.isLink == original.isLink
    ensures write.Landed? ==> Restore(slot, original.content, write) == original
    ensures Restore(slot, original.content, write).isLink == original.isLink
  {
  }

  /** What an accepted selection leaves: the chosen budget beside all other settings as they were, and a guardrail file written or, as a
      regular file with nothing left in it, removed; paths keep their links. Only unreadable settings cannot be saved. */
  lemma SelectionKeepsTheRest(t: State, s: State, budget: real, plan: Option<Plan>, valid: G.Item -> bool)
    ensures NewSettings(s.settings, budget).None? <==> s.settings.content.Some? && s.settings.content.value.parsed.None?
    ensures Selected(t, s, budget, plan, valid) ==>
              && t.settings.isLink == s.settings.isLink && t.guardrail.isLink == s.guardrail.isLink
              && Load(t.settings, false) == Some(Settings(Some(budget), if s.settings.content.None? then 0 else s.settings.content.value.parsed.value.others))
              && (plan.None? ==> t.guardrail == s.guardrail)
              && (plan.Some? ==> Load(t.guardrail, false).Some? || (t.guardrail == Slot(false, None) && !s.guardrail.isLink))
  {
    hide Edit, SetupCreatedEmpty, Authored;
  }

  /** The guardrail file as the mutation leaves it, restored or not. */
  ghost function Written(slot: Slot<G.Item>, plan: Option<Plan>, valid: G.Item -> bool, faults: FileFaults): Slot<G.Item> {
    var planned := Planned(slot, plan, valid);
    if planned.Some? && !faults.write.Refused? then planned.value else slot
  }

  /** The guardrail file around the catalog window. */
  lemma GuardrailWindowHolds(s: State, plan: Option<Plan>, valid: G.Item -> bool, update: Update, revision: nat, faults: SetupFaults)
    ensures var (t, outcome) := GuardrailWindow(s, plan, valid, update, revision, faults);
            && t.settings == s.settings && t.guardrail.isLink == s.guardrail.isLink
            && (outcome.Done? || outcome.ActivationUnknown? ==> Some(t.guardrail) == Planned(s.guardrail, plan, valid))
            && (outcome.Failed? || (outcome.CompensationUnknown? && outcome.resource != GuardrailFile) ==> t.guardrail == s.guardrail)
            && (outcome.CompensationUnknown? && outcome.resource == GuardrailFile && faults.guardrail.restore.Refused? ==>
                  t.guardrail == Written(s.guardrail, plan, valid, faults.guardrail))
  {
    hide Planned, ApplyGuardrails, CatalogWindow;
    if plan.Some? { AppliedOrUntouched(s.guardrail, plan.value, valid, faults.guardrail); }
    var slot := if plan.None? then s.guardrail else ApplyGuardrails(s.guardrail, plan.value, valid, faults.guardrail).0;
    WindowFrames(s.(guardrail := slot), update, revision, faults.catalog);
    RestoreBrings(slot, s.guardrail, faults.guardrail.restore);
    assert plan.None? ==> Planned(s.guardrail, plan, valid) == Some(s.guardrail) by { NoPlan(s.guardrail, plan, valid); }
  }

  lemma NoPlan(slot: Slot<G.Item>, plan: Option<Plan>, valid: G.Item -> bool)
    ensures plan.None? ==> Planned(slot, plan, valid) == Some(slot)
  {
  }

  lemma WindowFrames(s: State, update: Update, revision: nat, faults: CatalogFaults)
    ensures var (t, outcome) := CatalogWindow(s, update, revision, faults);
            t.settings == s.settings && t.guardrail == s.guardrail && (outcome.CompensationUnknown? ==> outcome.resource == CatalogFile)
  {
  }

  /** Catalog and alias after the whole window are those of the catalog window when it was reached. */
  lemma SetupTail(s: State, budget: real, plan: Option<Plan>, valid: G.Item -> bool, update: Update, revision: nat, faults: SetupFaults)
    ensures var (t, outcome) := Setup(s, budget, plan, valid, update, revision, faults);
            var (inner, result) := CatalogWindow(s, update, revision, faults.catalog);
            var restored := faults.settings.restore.Landed? && faults.guardrail.restore.Landed?;
            if Reached(s, budget, plan, valid, faults) then
              && t.catalog == inner.catalog && t.alias == inner.alias
              && (if result.Done? || result.ActivationUnknown? then
                    if faults.lateRaises then outcome.Failed? || outcome.CompensationUnknown? else outcome == result
                  else outcome == result || outcome.CompensationUnknown?)
              && (outcome.Failed? ==> result.Failed? || (faults.lateRaises && !result.CompensationUnknown?))
              && (restored && faults.lateRaises && (result.Done? || result.ActivationUnknown?) ==> outcome.Failed?)
              && (restored && result.Failed? ==> outcome.Failed?)
              && (outcome.Failed? && (faults.lateRaises || result.Failed?) ==> restored)
            else
              t.catalog == s.catalog && t.alias == s.alias && (outcome.Failed? || outcome.CompensationUnknown?)
  {
    hide SaveBudget, ApplyGuardrails, Planned, Rollback, Activate, Apply, Edited;
    var slot := SaveBudget(s.settings, budget, faults.settings).0;
    var guarded := if plan.None? then s.guardrail else ApplyGuardrails(s.guardrail, plan.value, valid, faults.guardrail).0;
    SameWindow(s, s.(settings := slot, guardrail := guarded), update, revision, faults.catalog);
    hide CatalogWindow;
  }

  lemma SameWindow(s: State, u: State, update: Update, revision: nat, faults: CatalogFaults)
    requires s.catalog == u.catalog && s.alias == u.alias
    ensures var (a, x) := CatalogWindow(s, update, revision, faults);
            var (b, y) := CatalogWindow(u, update, revision, faults);
            a.catalog == b.catalog && a.alias == b.alias && x == y
  {
    hide Rollback, Activate, Apply, Edited;
  }

  lemma SettingsHold(s: State, budget: real, plan: Option<Plan>, valid: G.Item -> bool, update: Update, revision: nat, faults: SetupFaults)
    ensures var (t, outcome) := Setup(s, budget, plan, valid, update, revision, faults);
            && (outcome.Done? || outcome.ActivationUnknown? ==> Selected(t, s, budget, plan, valid))
            && (outcome.Failed? ==> t.settings == s.settings && t.guardrail == s.guardrail)
            && (outcome.CompensationUnknown? && outcome.resource != SettingsFile ==> t.settings == s.settings)
            && (outcome.CompensationUnknown? && outcome.resource == CatalogFile ==> t.guardrail == s.guardrail)
            && (outcome.CompensationUnknown? && outcome.resource == SettingsFile && faults.settings.restore.Refused? ==>
                  if NewSettings(s.settings, budget).None? || faults.settings.write.Refused? then t.settings == s.settings
                  else Some(t.settings) == NewSettings(s.settings, budget))
  {
    hide Planned, GuardrailWindow;
    var (slot, raised) := SaveBudget(s.settings, budget, faults.settings);
    GuardrailWindowHolds(s.(settings := slot), plan, valid, update, revision, faults);
    RestoreBrings(slot, s.settings, faults.settings.restore);
  }

  /** All or nothing, except exactly when a late exception undoes the files beside a kept authority or a dangling catalog link is removed. */
  lemma SetupIsAllOrNothing(s: State, budget: real, plan: Option<Plan>, valid: G.Item -> bool, update: Update, revision: nat, faults: SetupFaults)
    requires Truthful(faults.catalog.commit) && PlannedFrom(update, s.catalog) && revision != s.alias
    requires !update.Changed() ==> faults.catalog.edit.None?
    ensures var (t, outcome) := Setup(s, budget, plan, valid, update, revision, faults);
            var result := CatalogWindow(s, update, revision, faults.catalog).1;
            AllOrNothing(s, t, outcome, budget, plan, valid, update, revision)
            <==> !(&& Reached(s, budget, plan, valid, faults) && faults.settings.restore.Landed? && faults.guardrail.restore.Landed?
                   && (Strands(update, result, faults)
                       || (result.Failed? && Dangling(s.catalog) && Removed(s.catalog, update, faults.catalog))))
  {
    SettingsHold(s, budget, plan, valid, update, revision, faults);
    SetupTail(s, budget, plan, valid, update, revision, faults);
    CatalogAllOrNothing(s, update, revision, faults.catalog);
    AliasAfter(s, update, revision, faults.catalog);
    hide Setup, CatalogWindow, Reached, Selected, Removed;
  }

  lemma AliasAfter(s: State, update: Update, revision: nat, faults: CatalogFaults)
    requires Truthful(faults.commit)
    ensures var (t, outcome) := CatalogWindow(s, update, revision, faults);
            && (outcome.Done? || outcome.ActivationUnknown? ==> t.alias == if Committed(faults.commit) then revision else s.alias)
            && (outcome.ActivationUnknown? && !update.Changed() ==> t.catalog == s.catalog)
  {
  }

  /** With no late exception and no dangling catalog link the window is all or nothing, and an unproven undo names the file it leaves in doubt. */
  lemma QuietSetupIsAllOrNothing(s: State, budget: real, plan: Option<Plan>, valid: G.Item -> bool, update: Update, revision: nat, faults: SetupFaults)
    requires Truthful(faults.catalog.commit) && PlannedFrom(update, s.catalog) && revision != s.alias
    requires !update.Changed() ==> faults.catalog.edit.None?
    requires !faults.lateRaises && !Dangling(s.catalog)
    ensures var (t, outcome) := Setup(s, budget, plan, valid, update, revision, faults);
            && AllOrNothing(s, t, outcome, budget, plan, valid, update, revision)
            && (outcome.CompensationUnknown? ==> t.alias == s.alias
                                                 && (outcome.resource != SettingsFile ==> t.settings == s.settings)
                                                 && (outcome.resource == CatalogFile ==> t.guardrail == s.guardrail))
  {
    SetupIsAllOrNothing(s, budget, plan, valid, update, revision, faults);
    SettingsHold(s, budget, plan, valid, update, revision, faults);
    SetupTail(s, budget, plan, valid, update, revision, faults);
    CatalogAllOrNothing(s, update, revision, faults.catalog);
    hide Setup, CatalogWindow, Reached, Selected, Removed, AllOrNothing;
  }

  const QUIET_FILE := FileFaults(false, Landed, false, Landed)
  const QUIET_CATALOG := CatalogFaults(false, Landed, false, Commit(false, true, true, false, true), None, false, Landed, false)

  /** A progress report that raises after the commit leaves the new catalog and alias beside the old budget. */
  lemma LateReportStrandsTheCommit()
    ensures exists s: State, update: Update, faults: SetupFaults ::
              && Truthful(faults.catalog.commit) && PlannedFrom(update, s.catalog)
              && var (t, outcome) := Setup(s, 2.0, None, (item: G.Item) => true, update, 1, faults);
                 outcome.Failed? && t.alias == 1 && t.alias != s.alias && t.catalog != s.catalog && t.settings == s.settings
  {
    var s := State(Slot(false, None), Slot(false, None), Slot(false, Some(Encode(Catalog(3)))), 0);
    var update := Update(Some(Catalog(3)), Catalog(7));
    var faults := SetupFaults(QUIET_FILE, QUIET_FILE, false, QUIET_CATALOG, true);
    var r := Setup(s, 2.0, None, (item: G.Item) => true, update, 1, faults);
    assert CatalogWindow(s, update, 1, QUIET_CATALOG).1 == Done;
    assert Truthful(faults.catalog.commit) && PlannedFrom(update, s.catalog) && r.1.Failed?;
  }

  /** With nothing refused, setup succeeds exactly when the settings parse and the plan is accepted and lands as selected. */
  lemma QuietSetupSucceeds(s: State, budget: real, plan: Option<Plan>, valid: G.Item -> bool, update: Update, revision: nat)
    requires PlannedFrom(update, s.catalog)
    ensures var faults := SetupFaults(QUIET_FILE, QUIET_FILE, false, QUIET_CATALOG, false);
            Setup(s, budget, plan, valid, update, revision, faults).1.Done?
            <==> && NewSettings(s.settings, budget).Some?
                 && (plan.Some? ==> Planned(s.guardrail, plan, valid).Some?
                                    && LandedAsSelected(Planned(s.guardrail, plan, valid).value, plan.value))
  {
    hide Planned, LandedAsSelected, Rollback;
  }

  /** An accepted standard plan always lands as selected. */
  lemma StandardPlanLands(slot: Slot<G.Item>, valid: G.Item -> bool, setup: G.Setup)
    requires Planned(slot, Some(TurnOn(setup)), valid).Some?
    ensures LandedAsSelected(Planned(slot, Some(TurnOn(setup)), valid).value, TurnOn(setup))
  {
    hide LandedAsSelected;
    var document := Authored(slot, valid).value;
    var edited := G.EnableStandard(document, setup).value;
    G.EnabledLists(document, setup);
    assert G.Policies(edited) != [];
    assert !SetupCreatedEmpty(edited);
    G.EnableLandsAsStandard(document, setup);
    LandedMeans(Put(slot, Encode(edited), Landed), TurnOn(setup));
  }

  lemma LandedMeans(slot: Slot<G.Item>, plan: Plan)
    ensures LandedAsSelected(slot, plan)
            <==> Landing(slot, plan.Target()).Ok? && if plan.TurnOff? then Landing(slot, plan.Target()).value.Off?
                                                     else Landing(slot, plan.Target()).value.Standard?
  {
  }

  lemma EmptyReadsAsOff(document: G.Item, pair: G.Pair)
    requires SetupCreatedEmpty(document)
    ensures G.Inspect(document, pair) == G.Ok(G.Off)
  {
    hide G.SetupOwnedPolicy, G.SetupOwnedAdapter, G.AdapterFor, G.ObjectList;
    assert Filter(G.Assigned(pair), []) == [];
  }

  /** An accepted plan to turn off lands unless a policy setup does not own remains for the pair; then the file is put back. */
  lemma OffPlanLands(slot: Slot<G.Item>, valid: G.Item -> bool, pair: G.Pair)
    requires Planned(slot, Some(TurnOff(pair)), valid).Some?
    ensures G.Readable(Authored(slot, valid).value)
    ensures LandedAsSelected(Planned(slot, Some(TurnOff(pair)), valid).value, TurnOff(pair))
            <==> forall item :: item in G.Policies(Authored(slot, valid).value) && G.SameIdentity(item, pair) ==> G.SetupOwnedPolicy(item, pair)
  {
    hide LandedAsSelected, SetupCreatedEmpty, G.SetupOwnedPolicy, G.SameIdentity, G.Policies, G.Readable, G.DisableOwned, G.Inspect;
    var document := Authored(slot, valid).value;
    var edited := G.DisableOwned(document, pair).value;
    G.DisableReads(document, pair);
    G.DisableLandsAsOff(document, pair);
    var published := Publish(slot, edited, Landed);
    LandedMeans(published, TurnOff(pair));
    if SetupCreatedEmpty(edited) { EmptyReadsAsOff(edited, pair); }
  }
}
