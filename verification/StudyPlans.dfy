/** Frozen study plans: ordered jobs with earlier dependencies and isolated phases. */
module StudyPlans {
  import opened Wrappers

  datatype Phase = Development | Confirmation

  /** `frozen` stands for every registered field the runner only copies. */
  datatype Job = Job(id: string, phase: Phase, dependencies: seq<string>, plannedSteps: nat, plannedJudges: nat, frozen: string)

  datatype Plan = Plan(id: string, codeRevision: string, jobs: seq<Job>, informationControls: string)

  predicate Registered(jobs: seq<Job>, id: string) {
    exists k :: 0 <= k < |jobs| && jobs[k].id == id
  }

  predicate RegisteredIn(jobs: seq<Job>, id: string, phase: Phase) {
    exists k :: 0 <= k < |jobs| && jobs[k].id == id && jobs[k].phase == phase
  }

  /** A new ID, and only earlier dependencies. */
  ghost predicate FollowsEarlier(jobs: seq<Job>, job: Job) {
    !Registered(jobs, job.id) && forall d :: d in job.dependencies ==> Registered(jobs, d)
  }

  /** Development never names a confirmation job. */
  ghost predicate KeepsPhase(jobs: seq<Job>, job: Job) {
    job.phase == Development ==> forall d :: d in job.dependencies ==> !RegisteredIn(jobs, d, Confirmation)
  }

  ghost predicate Ordered(jobs: seq<Job>) {
    forall i :: 0 <= i < |jobs| ==> FollowsEarlier(jobs[..i], jobs[i]) && KeepsPhase(jobs[..i], jobs[i])
  }

  datatype Verdict = Accepted | Unordered(at: nat) | PhaseLeak(at: nat)

  /** Accepts exactly the ordered plans; a refusal names the first job at fault and its fault. */
  method Validate(jobs: seq<Job>) returns (v: Verdict)
    ensures v.Accepted? <==> Ordered(jobs)
    ensures v.Unordered? ==> v.at < |jobs| && Ordered(jobs[..v.at]) && !FollowsEarlier(jobs[..v.at], jobs[v.at])
    ensures v.PhaseLeak? ==>
              v.at < |jobs| && Ordered(jobs[..v.at]) && FollowsEarlier(jobs[..v.at], jobs[v.at]) && !KeepsPhase(jobs[..v.at], jobs[v.at])
  {
    hide FollowsEarlier, KeepsPhase;
    var seen: set<string>, confirmation: set<string> := {}, {};
    for i := 0 to |jobs|
      invariant forall id :: id in seen <==> Registered(jobs[..i], id)
      invariant forall id :: id in confirmation <==> RegisteredIn(jobs[..i], id, Confirmation)
      invariant Ordered(jobs[..i])
    {
      var job := jobs[i];
      OrderedPrefixes(jobs, i);
      Checked(jobs[..i], job, seen, confirmation);
      if job.id in seen || exists d :: d in job.dependencies && d !in seen {
        return Unordered(i);
      }
      if job.phase == Development && exists d :: d in job.dependencies && d in confirmation {
        return PhaseLeak(i);
      }
      RegisteredNext(jobs, i);
      hide Registered, RegisteredIn;
      seen := seen + {job.id};
      if job.phase == Confirmation {
        confirmation := confirmation + {job.id};
      }
      assert Ordered(jobs[..i + 1]);
    }
    assert jobs[..|jobs|] == jobs;
    return Accepted;
  }

  /** The two sets decide both rules. */
  lemma Checked(jobs: seq<Job>, job: Job, seen: set<string>, confirmation: set<string>)
    requires forall id :: id in seen <==> Registered(jobs, id)
    requires forall id :: id in confirmation <==> RegisteredIn(jobs, id, Confirmation)
    ensures FollowsEarlier(jobs, job) <==> !(job.id in seen || exists d :: d in job.dependencies && d !in seen)
    ensures KeepsPhase(jobs, job) <==> !(job.phase == Development && exists d :: d in job.dependencies && d in confirmation)
  {
  }

  lemma OrderedPrefixes(jobs: seq<Job>, i: nat)
    requires i < |jobs|
    ensures forall k :: 0 <= k < i ==> jobs[..i][..k] == jobs[..k]
    ensures forall k :: 0 <= k < i + 1 ==> jobs[..i + 1][..k] == jobs[..k]
    ensures Ordered(jobs) ==> Ordered(jobs[..i]) && FollowsEarlier(jobs[..i], jobs[i]) && KeepsPhase(jobs[..i], jobs[i])
  {
    assert forall k :: 0 <= k < i ==> jobs[..i][..k] == jobs[..k];
  }

  lemma RegisteredNext(jobs: seq<Job>, i: nat)
    requires i < |jobs|
    ensures forall id :: Registered(jobs[..i + 1], id) <==> Registered(jobs[..i], id) || id == jobs[i].id
    ensures forall id, phase :: RegisteredIn(jobs[..i + 1], id, phase) <==>
                                RegisteredIn(jobs[..i], id, phase) || (id == jobs[i].id && phase == jobs[i].phase)
  {
    assert jobs[..i + 1] == jobs[..i] + [jobs[i]];
    forall id | Registered(jobs[..i], id)
      ensures Registered(jobs[..i + 1], id)
    {
      var k :| 0 <= k < i && jobs[..i][k].id == id;
      assert jobs[..i + 1][k].id == id;
    }
    forall id, phase | RegisteredIn(jobs[..i], id, phase)
      ensures RegisteredIn(jobs[..i + 1], id, phase)
    {
      var k :| 0 <= k < i && jobs[..i][k].id == id && jobs[..i][k].phase == phase;
      assert jobs[..i + 1][k].id == id;
    }
    assert jobs[..i + 1][i] == jobs[i];
  }

  /** Each position names a dependency of the one before it. */
  ghost predicate Chain(jobs: seq<Job>, path: seq<nat>) {
    && (forall t :: 0 <= t < |path| ==> path[t] < |jobs|)
    && forall t :: 0 <= t < |path| - 1 ==> jobs[path[t + 1]].id in jobs[path[t]].dependencies
  }

  lemma DistinctIds(jobs: seq<Job>, early: nat, late: nat)
    requires Ordered(jobs) && early < late < |jobs|
    ensures jobs[early].id != jobs[late].id
  {
    assert FollowsEarlier(jobs[..late], jobs[late]);
    assert jobs[..late][early] == jobs[early];
  }

  lemma UniqueIds(jobs: seq<Job>, i: nat, k: nat)
    requires Ordered(jobs) && i < |jobs| && k < |jobs| && jobs[i].id == jobs[k].id
    ensures i == k
  {
    if i < k { DistinctIds(jobs, i, k); }
    if k < i { DistinctIds(jobs, k, i); }
  }

  /** An accepted plan is acyclic: along every chain of dependencies positions strictly fall. */
  lemma {:induction false} ChainsDescend(jobs: seq<Job>, path: seq<nat>)
    requires Ordered(jobs) && Chain(jobs, path) && |path| > 1
    ensures path[|path| - 1] < path[0]
  {
    var i, k := path[0], path[1];
    assert FollowsEarlier(jobs[..i], jobs[i]);
    var e :| 0 <= e < i && jobs[..i][e].id == jobs[k].id;
    UniqueIds(jobs, e, k);
    if |path| > 2 {
      assert forall t :: 0 <= t < |path[1..]| ==> path[1..][t] == path[t + 1];
      ChainsDescend(jobs, path[1..]);
    }
  }

  /** Only direct dependencies are checked, yet everything a development job reaches is a development job. */
  lemma {:induction false} PhaseIsolationIsTransitive(jobs: seq<Job>, path: seq<nat>)
    requires Ordered(jobs) && Chain(jobs, path) && |path| > 0 && jobs[path[0]].phase == Development
    ensures forall t :: 0 <= t < |path| ==> jobs[path[t]].phase == Development
  {
    if |path| > 1 {
      var i, k := path[0], path[1];
      assert FollowsEarlier(jobs[..i], jobs[i]) && KeepsPhase(jobs[..i], jobs[i]);
      var e :| 0 <= e < i && jobs[..i][e].id == jobs[k].id;
      UniqueIds(jobs, e, k);
      assert jobs[..i][k].id == jobs[k].id;
      assert forall t :: 0 <= t < |path[1..]| ==> path[1..][t] == path[t + 1];
      PhaseIsolationIsTransitive(jobs, path[1..]);
      forall t | 0 <= t < |path|
        ensures jobs[path[t]].phase == Development
      {
        if t > 0 { assert path[t] == path[1..][t - 1]; }
      }
    }
  }
}
