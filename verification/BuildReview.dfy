/** The selected build and its review handoff, changed together or not at all. */
module BuildReview {
  import opened Wrappers

  // ----- Artifacts -----

  datatype Scenario = Scenario(scenarioId: string, instruction: string, context: nat, tools: seq<string>, reference: Option<string>)

  /** A mined task, or one written by an author; an authored identity binds every scenario field. */
  datatype Task = Mined(id: nat, weight: real) | Authored(scenario: Scenario, weight: real)

  datatype TaskSet = TaskSet(provenance: nat, trace: Pointer, tasks: seq<Task>, coverage: Option<nat>, lineage: nat)

  /** Content identities and manifest digests are injective in what they are taken over. */
  datatype ContentId = PlainId(n: nat) | TaskSetId(trace: Pointer, tasks: seq<Task>, coverage: Option<nat>, lineage: nat)

  datatype Digest = PlainDigest(n: nat) | TaskSetDigest(content: TaskSet)

  datatype Pointer = Pointer(id: ContentId, digest: Digest)

  datatype Kind = TraceDataset | TaskSetKind | RagIndex | WorldModel

  datatype Artifact = Plain(kind: Kind, inputs: seq<Pointer>, digest: nat) | Tasks(taskSet: TaskSet) {
    function Type(): Kind { if Plain? then kind else TaskSetKind }
    function Sources(): seq<Pointer> { if Plain? then inputs else [taskSet.trace] }
    function Sum(): Digest { if Plain? then PlainDigest(digest) else TaskSetDigest(taskSet) }
  }

  type Store = map<ContentId, Artifact>

  function IdOf(taskSet: TaskSet): ContentId { TaskSetId(taskSet.trace, taskSet.tasks, taskSet.coverage, taskSet.lineage) }

  function PointerTo(taskSet: TaskSet): Pointer { Pointer(IdOf(taskSet), TaskSetDigest(taskSet)) }

  datatype Build = Build(trace: Pointer, tasks: Pointer, servingRag: Pointer, fitRag: Pointer, worldModel: Pointer)

  predicate Names(store: Store, pointer: Pointer, kind: Kind) {
    pointer.id in store && store[pointer.id].Type() == kind && store[pointer.id].Sum() == pointer.digest
  }

  /** Every pointer names the stored manifest it should, and the manifests bind one another. */
  predicate Verified(store: Store, build: Build) {
    && Names(store, build.trace, TraceDataset) && Names(store, build.tasks, TaskSetKind)
    && Names(store, build.servingRag, RagIndex) && Names(store, build.fitRag, RagIndex) && Names(store, build.worldModel, WorldModel)
    && store[build.tasks.id].Sources() == [build.trace]
    && store[build.servingRag.id].Sources() == [build.trace] && store[build.fitRag.id].Sources() == [build.trace]
    && store[build.worldModel.id].Sources() == [build.servingRag]
  }

  // ----- Review -----

  datatype Binding = Binding(trace: Pointer, tasks: Pointer, rest: nat)

  /** The readiness record and the identity taken over the rest of it. */
  datatype Readiness = Readiness(binding: Binding, readinessId: Binding) {
    predicate Valid() { readinessId == binding }
  }

  datatype Member = Null | Ready(readiness: Readiness) | Other(n: nat)

  /** The review draft: absent, not an object, or an object of members. */
  datatype Review = Missing | NotAnObject | Object(members: map<string, Member>)

  const BUILD_SCOPED := {"manual_judge", "rubric_review", "human_score_history", "human_score_submissions"}

  datatype Project = Project(store: Store, frozen: bool, hosted: bool, build: Option<Build>, traceImport: Option<nat>, review: Review)

  function ValidReadiness(member: Member): Option<Readiness> {
    if member.Ready? && member.readiness.Valid() then Some(member.readiness) else None
  }

  function ReadyFor(binding: Binding): Readiness { Readiness(binding, binding) }

  /** Advances the binding and drops the judge namespaces only when it changed. */
  function Advance(members: map<string, Member>, prior: Option<Readiness>, readiness: Readiness): map<string, Member> {
    (if prior != Some(readiness) then members - BUILD_SCOPED else members)["build_review" := Ready(readiness)]
  }

  predicate CompletedBuildMatches(p: Project, readiness: Readiness) {
    && p.build.Some? && p.build.value.trace == readiness.binding.trace && p.build.value.tasks == readiness.binding.tasks
    && Verified(p.store, p.build.value)
  }

  /** The review after its handoff advances, or nothing when it is refused. */
  function SelectBuildReview(p: Project, readiness: Readiness): Option<Project> {
    if !CompletedBuildMatches(p, readiness) || p.review.NotAnObject? then None else
    var members := if p.review.Object? then p.review.members else map[];
    var prior := if "build_review" in members then members["build_review"] else Null;
    if !prior.Null? && ValidReadiness(prior).None? then None
    else Some(p.(review := Object(Advance(members, ValidReadiness(prior), readiness))))
  }

  function BindCompletedBuild(p: Project, build: Build, traceImport: Option<nat>): Option<Project> {
    if p.frozen || !Verified(p.store, build) then None else Some(p.(build := Some(build), traceImport := traceImport))
  }

  /** One transaction: both records, or neither. */
  function SelectCompletedBuild(p: Project, build: Build, readiness: Readiness, traceImport: Option<nat>): (Project, bool) {
    if build.trace != readiness.binding.trace || build.tasks != readiness.binding.tasks then (p, false) else
    var bound := BindCompletedBuild(p, build, traceImport);
    if bound.None? then (p, false) else
    var advanced := SelectBuildReview(bound.value, readiness);
    if advanced.None? then (p, false) else (advanced.value, true)
  }

  function CurrentReadiness(p: Project): Option<Readiness> {
    if p.review.Object? && "build_review" in p.review.members then ValidReadiness(p.review.members["build_review"]) else None
  }

  /** Rebinds the same evidence to another task set. */
  function SelectTaskSet(p: Project, tasks: Pointer): (Project, bool) {
    var readiness := CurrentReadiness(p);
    if p.build.None? || readiness.None? then (p, false) else
    var build, binding := p.build.value, readiness.value.binding;
    if binding.trace != build.trace || binding.tasks != build.tasks then (p, false)
    else if tasks == build.tasks then (p, true)
    else if p.hosted then (p, false)
    else SelectCompletedBuild(p, build.(tasks := tasks), ReadyFor(binding.(tasks := tasks)), p.traceImport)
  }

  /** This build input names a stored artifact of this kind, by its digest, made from these inputs where they are given. */
  ghost predicate StoredAs(store: Store, pointer: Pointer, kind: Kind, inputs: Option<seq<Pointer>>) {
    && pointer.id in store
    && match store[pointer.id]
       case Plain(k, made, digest) => k == kind && pointer.digest == PlainDigest(digest) && (inputs.Some? ==> made == inputs.value)
       case Tasks(taskSet) => kind == TaskSetKind && pointer.digest == TaskSetDigest(taskSet) && (inputs.Some? ==> inputs.value == [taskSet.trace])
  }

  /** A build is verified exactly when its five pointers name stored artifacts of their kinds, the tasks and both indexes made from its
      traces, and the world model from its serving index. */
  lemma VerifiedMeans(store: Store, build: Build)
    ensures Verified(store, build)
            <==> && StoredAs(store, build.trace, TraceDataset, None) && StoredAs(store, build.tasks, TaskSetKind, Some([build.trace]))
                 && StoredAs(store, build.servingRag, RagIndex, Some([build.trace])) && StoredAs(store, build.fitRag, RagIndex, Some([build.trace]))
                 && StoredAs(store, build.worldModel, WorldModel, Some([build.servingRag]))
  {
  }

  // ----- In step -----

  /** A selected build is named, evidence for evidence, by a valid recorded review. */
  ghost predicate InStep(p: Project) {
    p.build.Some? ==> CurrentReadiness(p).Some?
                      && CurrentReadiness(p).value.binding.trace == p.build.value.trace
                      && CurrentReadiness(p).value.binding.tasks == p.build.value.tasks
  }

  /** Everything that may happen to a project between builds; judge work writes any member but the handoff. */
  datatype Move =
    | CompleteBuild(build: Build, readiness: Readiness, traceImport: Option<nat>)
    | Switch(tasks: Pointer)
    | WriteMember(key: string, member: Member)
    | Persist(id: ContentId, artifact: Artifact)
    | Host(hosted: bool, frozen: bool)

  function Step(p: Project, move: Move): Project {
    match move
    case CompleteBuild(build, readiness, traceImport) => if readiness.Valid() then SelectCompletedBuild(p, build, readiness, traceImport).0 else p
    case Switch(tasks) => SelectTaskSet(p, tasks).0
    case WriteMember(key, member) =>
      if key == "build_review" || p.review.NotAnObject? then p
      else p.(review := Object((if p.review.Object? then p.review.members else map[])[key := member]))
    case Persist(id, artifact) => if id in p.store then p else p.(store := p.store[id := artifact])
    case Host(hosted, frozen) => p.(hosted := hosted, frozen := frozen)
  }

  function Run(p: Project, moves: seq<Move>): Project
    decreases |moves|
  {
    if moves == [] then p else Run(Step(p, moves[0]), moves[1..])
  }

  lemma AdvanceHolds(members: map<string, Member>, prior: Option<Readiness>, readiness: Readiness)
    ensures var after := Advance(members, prior, readiness);
            && "build_review" in after && after["build_review"] == Ready(readiness)
            && (forall key :: key !in BUILD_SCOPED && key != "build_review" ==>
                  (key in after <==> key in members) && (key in after ==> after[key] == members[key]))
            && (forall key :: key in BUILD_SCOPED ==>
                  (key in after <==> key in members && prior == Some(readiness)) && (key in after ==> after[key] == members[key]))
  {
  }

  /** A refused selection changes nothing; an accepted one records the build and exactly its readiness. */
  lemma SelectionIsAtomic(p: Project, build: Build, readiness: Readiness, traceImport: Option<nat>)
    requires readiness.Valid()
    ensures var (t, ok) := SelectCompletedBuild(p, build, readiness, traceImport);
            && (!ok ==> t == p)
            && (ok ==> t.build == Some(build) && CurrentReadiness(t) == Some(readiness) && t.traceImport == traceImport && InStep(t)
                       && Verified(t.store, build) && t.store == p.store && t.hosted == p.hosted)
            && (ok <==> && build.trace == readiness.binding.trace && build.tasks == readiness.binding.tasks
                        && !p.frozen && Verified(p.store, build) && !p.review.NotAnObject?
                        && (p.review.Object? && "build_review" in p.review.members && !p.review.members["build_review"].Null?
                            ==> ValidReadiness(p.review.members["build_review"]).Some?))
  {
    hide Verified;
    var members := if p.review.Object? then p.review.members else map[];
    AdvanceHolds(members, if "build_review" in members then ValidReadiness(members["build_review"]) else None, readiness);
  }

  /** Work on a judge, kept under these members of the review. */
  predicate JudgeNamespace(key: string) {
    key == "manual_judge" || key == "rubric_review" || key == "human_score_history" || key == "human_score_submissions"
  }

  /** An accepted selection drops the judge namespaces exactly when the recorded binding changes, and keeps every other member. */
  lemma JudgeStateFollowsTheBinding(p: Project, build: Build, readiness: Readiness, traceImport: Option<nat>)
    requires readiness.Valid() && SelectCompletedBuild(p, build, readiness, traceImport).1
    ensures var t := SelectCompletedBuild(p, build, readiness, traceImport).0;
            var members := if p.review.Object? then p.review.members else map[];
            && t.review.Object?
            && (forall key :: !JudgeNamespace(key) && key != "build_review" ==>
                  (key in t.review.members <==> key in members) && (key in members ==> t.review.members[key] == members[key]))
            && (forall key :: JudgeNamespace(key) ==>
                  (key in t.review.members <==> key in members && CurrentReadiness(p) == Some(readiness))
                  && (key in t.review.members ==> t.review.members[key] == members[key]))
  {
    hide Verified;
    var members := if p.review.Object? then p.review.members else map[];
    AdvanceHolds(members, if "build_review" in members then ValidReadiness(members["build_review"]) else None, readiness);
    hide Advance;
  }

  /** A task-set switch is accepted exactly for a plain project in step, and then changes only the task set of build and review. */
  lemma SwitchKeepsPointers(p: Project, tasks: Pointer)
    ensures var (t, ok) := SelectTaskSet(p, tasks);
            && (!ok ==> t == p)
            && (ok ==> p.build.Some? && CurrentReadiness(p).Some? && t.build == Some(p.build.value.(tasks := tasks))
                       && CurrentReadiness(t) == Some(ReadyFor(CurrentReadiness(p).value.binding.(tasks := tasks)))
                       && t.traceImport == p.traceImport && t.store == p.store && t.hosted == p.hosted && t.frozen == p.frozen)
            && (ok <==> && p.build.Some? && CurrentReadiness(p).Some?
                        && CurrentReadiness(p).value.binding.trace == p.build.value.trace
                        && CurrentReadiness(p).value.binding.tasks == p.build.value.tasks
                        && (tasks == p.build.value.tasks
                            || (!p.hosted && !p.frozen && Verified(p.store, p.build.value.(tasks := tasks)))))
  {
    hide Verified;
    if p.build.Some? && CurrentReadiness(p).Some? {
      var binding := CurrentReadiness(p).value.binding;
      SelectionIsAtomic(p, p.build.value.(tasks := tasks), ReadyFor(binding.(tasks := tasks)), p.traceImport);
      hide SelectCompletedBuild;
    }
  }

  /** Switching away and back restores build and review exactly. */
  lemma SwitchRoundTrip(p: Project, tasks: Pointer)
    requires InStep(p) && SelectTaskSet(p, tasks).1 && p.build.Some? && Verified(p.store, p.build.value)
    ensures var away := SelectTaskSet(p, tasks).0;
            var (back, ok) := SelectTaskSet(away, p.build.value.tasks);
            ok && back.build == p.build && CurrentReadiness(back) == CurrentReadiness(p) && back.traceImport == p.traceImport
  {
    hide Verified, SelectCompletedBuild, SelectTaskSet;
    SwitchKeepsPointers(p, tasks);
    var away := SelectTaskSet(p, tasks).0;
    SwitchKeepsPointers(away, p.build.value.tasks);
    var binding := CurrentReadiness(p).value.binding;
    assert away.build.value.(tasks := p.build.value.tasks) == p.build.value;
    assert binding.(tasks := tasks).(tasks := p.build.value.tasks) == binding;
    if tasks == p.build.value.tasks { assert p.build.value.(tasks := tasks) == p.build.value; }
    SameWhenCurrent(p, tasks);
  }

  lemma SameWhenCurrent(p: Project, tasks: Pointer)
    ensures p.build.Some? && tasks == p.build.value.tasks ==> SelectTaskSet(p, tasks).0 == p
    ensures p.build.Some? && tasks != p.build.value.tasks && SelectTaskSet(p, tasks).1 ==> !p.hosted && !p.frozen
  {
    hide Verified;
  }

  /** What happens between builds does happen: judge work is written, a new artifact is stored and an old one kept, and flags change freely. */
  lemma WorkHappens(p: Project, key: string, member: Member, id: ContentId, artifact: Artifact, hosted: bool, frozen: bool)
    ensures var t := Step(p, WriteMember(key, member));
            if key == "build_review" || p.review.NotAnObject? then t == p
            else t == p.(review := t.review) && t.review.Object?
                 && t.review.members.Keys == (if p.review.Object? then p.review.members.Keys else {}) + {key} && t.review.members[key] == member
                 && forall other :: p.review.Object? && other in p.review.members && other != key ==> t.review.members[other] == p.review.members[other]
    ensures var t := Step(p, Persist(id, artifact));
            && t == p.(store := t.store) && t.store.Keys == p.store.Keys + {id}
            && forall other :: other in t.store ==> t.store[other] == if other in p.store then p.store[other] else artifact
    ensures Step(p, Host(hosted, frozen)) == Project(p.store, frozen, hosted, p.build, p.traceImport, p.review)
  {
  }

  lemma StepKeepsInStep(p: Project, move: Move)
    requires InStep(p)
    ensures InStep(Step(p, move))
  {
    hide SelectCompletedBuild, SelectTaskSet;
    match move {
      case CompleteBuild(build, readiness, traceImport) => if readiness.Valid() { SelectionIsAtomic(p, build, readiness, traceImport); }
      case Switch(tasks) => SwitchKeepsPointers(p, tasks);
      case _ =>
    }
  }

  /** Over any run of builds, switches, judge work and binding changes, accepted or refused, the review names the selected build. */
  lemma {:induction false} RunKeepsInStep(p: Project, moves: seq<Move>)
    requires InStep(p)
    ensures InStep(Run(p, moves))
    decreases |moves|
  {
    hide Step, InStep;
    if moves != [] {
      StepKeepsInStep(p, moves[0]);
      RunKeepsInStep(Step(p, moves[0]), moves[1..]);
    }
  }

  // ----- The project as it is written -----

  class ProjectStore {
    var store: Store
    var frozen: bool
    var hosted: bool
    var build: Option<Build>
    var traceImport: Option<nat>
    var review: Review

    ghost function State(): Project
      reads this
    {
      Project(store, frozen, hosted, build, traceImport, review)
    }

    constructor (store: Store, frozen: bool, hosted: bool, build: Option<Build>, traceImport: Option<nat>, review: Review)
      ensures State() == Project(store, frozen, hosted, build, traceImport, review)
    {
      this.store, this.frozen, this.hosted, this.build, this.traceImport, this.review := store, frozen, hosted, build, traceImport, review;
    }

    /** Drops the judge namespaces one by one when the binding changes, then records it. */
    method AdvanceReview(members: map<string, Member>, prior: Option<Readiness>, readiness: Readiness)
      modifies this`review
      ensures review == Object(Advance(members, prior, readiness))
    {
      var root := members;
      if prior != Some(readiness) {
        var keys := BUILD_SCOPED;
        while keys != {}
          invariant keys <= BUILD_SCOPED && root == members - (BUILD_SCOPED - keys)
          decreases |keys|
        {
          var key :| key in keys;
          root := root - {key};
          keys := keys - {key};
        }
        assert BUILD_SCOPED - {} == BUILD_SCOPED;
      }
      review := Object(root["build_review" := Ready(readiness)]);
    }

    method TryBuildReview(readiness: Readiness) returns (ok: bool)
      modifies this`review
      ensures ok <==> SelectBuildReview(old(State()), readiness).Some?
      ensures State() == if ok then SelectBuildReview(old(State()), readiness).value else old(State())
    {
      hide Verified, Advance;
      if build.None? || build.value.trace != readiness.binding.trace || build.value.tasks != readiness.binding.tasks { return false; }
      if !Verified(store, build.value) || review.NotAnObject? { return false; }
      var members := if review.Object? then review.members else map[];
      var prior := if "build_review" in members then members["build_review"] else Null;
      var known := ValidReadiness(prior);
      if !prior.Null? && known.None? { return false; }
      AdvanceReview(members, known, readiness);
      ok := true;
    }

    /** Configuration first, review second; a refused review undoes the configuration. */
    method CompleteBuild(selected: Build, readiness: Readiness, traceImport: Option<nat>) returns (ok: bool)
      modifies this
      ensures (State(), ok) == SelectCompletedBuild(old(State()), selected, readiness, traceImport)
    {
      hide Verified, SelectBuildReview;
      if selected.trace != readiness.binding.trace || selected.tasks != readiness.binding.tasks { return false; }
      var priorBuild, priorImport := build, this.traceImport;
      if frozen || !Verified(store, selected) { return false; }
      build, this.traceImport := Some(selected), traceImport;
      ok := TryBuildReview(readiness);
      if !ok { build, this.traceImport := priorBuild, priorImport; }
    }

    method SwitchTaskSet(tasks: Pointer) returns (ok: bool)
      modifies this
      ensures (State(), ok) == SelectTaskSet(old(State()), tasks)
    {
      hide SelectCompletedBuild;
      if build.None? || !review.Object? || "build_review" !in review.members { return false; }
      var current := ValidReadiness(review.members["build_review"]);
      if current.None? { return false; }
      var binding := current.value.binding;
      if binding.trace != build.value.trace || binding.tasks != build.value.tasks { return false; }
      if tasks == build.value.tasks { return true; }
      if hosted { return false; }
      ok := CompleteBuild(build.value.(tasks := tasks), ReadyFor(binding.(tasks := tasks)), traceImport);
    }
  }
}
