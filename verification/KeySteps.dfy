/** Each system call once more, keeping one job's invariant in every recorded state. */
module KeySteps {
  import opened Wrappers
  import opened KeyDirectory
  import opened KeyOutputState

  ghost function Now(host: Host): World
    reads host
  {
    World(host.disk, host.issued)
  }

  /** Nothing recorded is forgotten. */
  twostate predicate Onward(host: Host)
    reads host
  {
    old(host.past) <= host.past && old(host.removed) <= host.removed && host.RefusalsCounted()
  }

  /** No call was refused since then. */
  twostate predicate Unrefused(host: Host)
    reads host
  {
    host.Unrefused()
  }

  /** Every entry removed since then carried one of these names, or was one of these inodes. */
  twostate predicate RemovedOnly(host: Host, names: set<string>, inodes: set<Inode>)
    reads host
  {
    forall k :: |old(host.removed)| <= k < |host.removed| ==>
      host.removed[k].name in names || host.removed[k].inode in inodes
  }

  /** In some state recorded from `from` on, the name led to this inode and the inode held these bytes. */
  ghost predicate Saw(past: seq<World>, from: nat, name: string, inode: Inode, data: seq<Cell>) {
    exists k :: from <= k < |past| && past[k].disk.Shows(name, inode, data)
  }

  /** In some state recorded from `from` on, the named file held these bytes. */
  ghost predicate ReadAs(past: seq<World>, from: nat, name: string, data: seq<Cell>) {
    exists k :: from <= k < |past| && past[k].disk.dirs != [] && name in past[k].disk.Live()
                && past[k].disk.Shows(name, past[k].disk.Live()[name], data)
  }

  /** In some state recorded from `from` on, nothing had this name. */
  ghost predicate SawNone(past: seq<World>, from: nat, name: string) {
    exists k :: from <= k < |past| && past[k].disk.dirs != [] && name !in past[k].disk.Live()
  }

  lemma SawNoneLater(past: seq<World>, more: seq<World>, from: nat, earlier: nat, name: string)
    requires past <= more && earlier <= from && SawNone(past, from, name)
    ensures SawNone(more, earlier, name)
  {
    var k :| from <= k < |past| && past[k].disk.dirs != [] && name !in past[k].disk.Live();
    assert more[k] == past[k];
  }

  lemma SawNow(host: Host, from: nat, name: string, inode: Inode, data: seq<Cell>)
    requires host.Valid() && from < |host.past| && host.disk.Shows(name, inode, data)
    ensures Saw(host.past, from, name, inode, data)
  {
    assert host.past[|host.past| - 1].disk.Shows(name, inode, data);
  }

  lemma SawLater(past: seq<World>, more: seq<World>, from: nat, earlier: nat, name: string, inode: Inode, data: seq<Cell>)
    requires past <= more && earlier <= from && Saw(past, from, name, inode, data)
    ensures Saw(more, earlier, name, inode, data)
  {
    var k :| from <= k < |past| && past[k].disk.Shows(name, inode, data);
    assert more[k] == past[k];
  }

  lemma SawReadLater(past: seq<World>, more: seq<World>, from: nat, earlier: nat, name: string, inode: Inode, data: seq<Cell>)
    requires past <= more && earlier <= from && Saw(past, from, name, inode, data)
    ensures ReadAs(more, earlier, name, data)
  {
    var k :| from <= k < |past| && past[k].disk.Shows(name, inode, data);
    assert more[k] == past[k];
  }

  /** The step, if taken, is the only new record. */
  twostate predicate Appended(host: Host, taken: bool)
    reads host
  {
    host.past == old(host.past) + if taken then [Now(host)] else []
  }

  ghost predicate Steady(job: Job, host: Host)
    reads host
  {
    host.Valid() && (host.quiet ==> Sound(job, host))
  }

  lemma Current(job: Job, host: Host)
    requires Sound(job, host)
    ensures Inv(job, Now(host))
  {
    assert host.past[|host.past| - 1] == Now(host);
  }

  method Create(host: Host, job: Job, name: string) returns (made: Option<Inode>)
    requires Steady(job, host)
    requires host.quiet && name !in host.Live() ==>
               forall i :: i !in host.disk.files ==> Inv(job, Now(host).(disk := host.disk.Created(name, i)))
    modifies host
    ensures Steady(job, host) && Onward(host) && RemovedOnly(host, {}, {})
    ensures host.quiet && made.Some? ==>
              && name !in old(host.Live()) && made.value !in old(host.disk.files)
              && Now(host) == old(Now(host)).(disk := old(host.disk).Created(name, made.value))
    ensures host.quiet && made.None? ==> Now(host) == old(Now(host))
    ensures host.quiet && Unrefused(host) && name !in old(host.Live()) ==> made.Some?
    ensures made.Some? ==> Saw(host.past, |old(host.past)| - 1, name, made.value, [])
  {
    made := host.CreateExclusive(name);
    if made.Some? { SawNow(host, |old(host.past)| - 1, name, made.value, []); }
  }

  method Write(host: Host, job: Job, inode: Inode, bytes: seq<Cell>) returns (count: Option<nat>)
    requires Steady(job, host)
    requires host.quiet ==> inode in host.disk.files
    requires host.quiet ==>
               forall n :: 0 <= n <= |bytes| ==> Inv(job, Now(host).(disk := host.disk.Wrote(inode, bytes[..n])))
    modifies host
    ensures Steady(job, host) && Onward(host) && RemovedOnly(host, {}, {})
    ensures count.Some? ==> count.value <= |bytes|
    ensures host.quiet && count.Some? ==>
              Now(host) == old(Now(host)).(disk := old(host.disk).Wrote(inode, bytes[..count.value]))
    ensures host.quiet && count.None? ==> Now(host) == old(Now(host))
    ensures host.quiet && Unrefused(host) ==> count.Some? && (|bytes| > 0 ==> count.value > 0)
  {
    count := host.Write(inode, bytes);
  }

  method SyncFile(host: Host, job: Job, inode: Inode) returns (ok: bool)
    requires Steady(job, host)
    requires host.quiet ==> inode in host.disk.files && Inv(job, Now(host).(disk := host.disk.FileSynced(inode)))
    modifies host
    ensures Steady(job, host) && Onward(host) && RemovedOnly(host, {}, {})
    ensures host.quiet ==> Now(host) == if ok then old(Now(host)).(disk := old(host.disk).FileSynced(inode)) else old(Now(host))
    ensures host.quiet && Unrefused(host) ==> ok
  {
    ok := host.SyncFile(inode);
  }

  method SyncDirectory(host: Host, job: Job) returns (ok: bool)
    requires Steady(job, host)
    modifies host
    ensures host.quiet ==> Appended(host, ok)
    ensures Steady(job, host) && Onward(host) && RemovedOnly(host, {}, {})
    ensures host.quiet ==> Now(host) == if ok then old(Now(host)).(disk := old(host.disk).Synced()) else old(Now(host))
    ensures host.quiet && Unrefused(host) ==> ok
  {
    if host.quiet {
      Current(job, host);
      InvSynced(job, Now(host));
    }
    ok := host.SyncDirectory();
  }

  method Link(host: Host, job: Job, source: string, name: string) returns (ok: bool)
    requires Steady(job, host)
    requires host.quiet && source in host.Live() && name !in host.Live() ==>
               Inv(job, Now(host).(disk := host.disk.Entered(name, host.Live()[source])))
    modifies host
    ensures host.quiet ==> Appended(host, ok)
    ensures Steady(job, host) && Onward(host) && RemovedOnly(host, {}, {})
    ensures host.quiet && ok ==>
              && source in old(host.Live()) && name !in old(host.Live())
              && Now(host) == old(Now(host)).(disk := old(host.disk).Entered(name, old(host.Live())[source]))
    ensures host.quiet && !ok ==> Now(host) == old(Now(host))
    ensures host.quiet && Unrefused(host) && source in old(host.Live()) && name !in old(host.Live()) ==> ok
  {
    ok := host.Link(source, name);
  }

  /** Removal by name alone: only ever the marker's private copy. */
  method UnlinkStaging(host: Host, job: Job, token: string) returns (ok: bool)
    requires Steady(job, host)
    modifies host
    ensures Steady(job, host) && Onward(host) && RemovedOnly(host, {StagingName(MarkerName(job.file), token)}, {})
    ensures host.quiet ==>
              if ok then Now(host) == old(Now(host)).(disk := old(host.disk).Unlinked(StagingName(MarkerName(job.file), token)))
              else Now(host) == old(Now(host))
    ensures host.quiet && Unrefused(host) && StagingName(MarkerName(job.file), token) in old(host.Live()) ==> ok
  {
    if host.quiet {
      Current(job, host);
      StagingApart(job.file, token);
      InvUnlinked(job, Now(host), StagingName(MarkerName(job.file), token));
    }
    ok := host.Unlink(StagingName(MarkerName(job.file), token));
  }

  method UnlinkExact(host: Host, job: Job, name: string, id: Identity, current: bool) returns (ok: bool)
    requires Steady(job, host)
    requires host.quiet && name == job.file ==> host.issued.None?
    requires host.quiet && name == MarkerName(job.file) ==> job.file !in host.Live() || host.issued.Some?
    modifies host
    ensures host.quiet ==> Appended(host, ok)
    ensures Steady(job, host) && Onward(host) && RemovedOnly(host, {}, {id.inode})
    ensures host.quiet ==>
              if ok then old(host.Names(name, id)) && Now(host) == old(Now(host)).(disk := old(host.disk).Unlinked(name))
              else Now(host) == old(Now(host))
    ensures host.quiet && Unrefused(host) && old(host.Names(name, id)) ==> ok || (!current && host.outdated > old(host.outdated))
  {
    if host.quiet {
      Current(job, host);
      InvUnlinked(job, Now(host), name);
    }
    ok := host.UnlinkExact(name, id, current);
  }

  method Exists(host: Host, job: Job, name: string) returns (there: bool)
    requires Steady(job, host)
    modifies host
    ensures host.quiet ==> Appended(host, false)
    ensures Steady(job, host) && Onward(host) && RemovedOnly(host, {}, {})
    ensures host.quiet ==> Now(host) == old(Now(host)) && there == (name in host.Live())
    ensures host.removed == old(host.removed)
    ensures !there ==> SawNone(host.past, |old(host.past)| - 1, name)
  {
    there := host.Exists(name);
    assert !there ==> name !in host.past[|host.past| - 1].disk.Live();
  }

  method Recorded(host: Host, job: Job, name: string, m: Marker) returns (id: Option<Identity>)
    requires Steady(job, host)
    modifies host
    ensures host.quiet ==> Appended(host, false)
    ensures Steady(job, host) && Onward(host) && RemovedOnly(host, {}, {})
    ensures id.Some? ==> id.value.inode == m.target
    ensures host.quiet ==> Now(host) == old(Now(host)) && (id.Some? ==> host.Names(name, id.value))
    ensures (
      && host.quiet && Unrefused(host) && name in host.Live() && host.Live()[name] == m.target
      && host.disk.files[m.target].Plain() && |host.disk.files[m.target].data| <= m.outputLength
    ) ==> id.Some?
  {
    id := host.RecordedInode(name, m);
  }

  method ReadFile(host: Host, job: Job, name: string, limit: nat) returns (r: Option<(seq<Cell>, Identity)>)
    requires Steady(job, host)
    modifies host
    ensures host.quiet ==> Appended(host, false)
    ensures Steady(job, host) && Onward(host) && RemovedOnly(host, {}, {})
    ensures host.quiet ==> Now(host) == old(Now(host))
    ensures host.quiet && r.Some? ==> host.Names(name, r.value.1) && host.disk.files[host.Live()[name]].data == r.value.0
    ensures r.Some? ==> Saw(host.past, |old(host.past)| - 1, name, r.value.1.inode, r.value.0)
    ensures (
      && host.quiet && Unrefused(host) && name in host.Live()
      && host.disk.files[host.Live()[name]].Plain() && |host.disk.files[host.Live()[name]].data| <= limit
    ) ==> r.Some?
  {
    r := host.ReadPrivate(name, limit);
    if r.Some? { SawNow(host, |old(host.past)| - 1, name, r.value.1.inode, r.value.0); }
  }

  method Reconcile(host: Host, job: Job, evidence: Evidence) returns (outcome: Option<bool>)
    requires Steady(job, host)
    modifies host
    ensures host.quiet ==> Appended(host, false)
    ensures Steady(job, host) && Onward(host) && RemovedOnly(host, {}, {})
    ensures host.quiet ==> Now(host) == old(Now(host))
    ensures host.quiet && outcome == Some(true) ==> host.issued == Some(evidence)
    ensures host.quiet && outcome == Some(false) ==> host.issued.None?
    ensures host.quiet && Unrefused(host) && (host.issued.Some? ==> host.issued.value == evidence) ==> outcome == Some(host.issued.Some?)
    ensures host.removed == old(host.removed)
  {
    outcome := host.Reconcile(evidence);
  }

  method ReadText(host: Host, job: Job, name: string) returns (r: Option<seq<Cell>>)
    requires Steady(job, host)
    modifies host
    ensures Steady(job, host) && Onward(host) && RemovedOnly(host, {}, {})
    ensures host.quiet ==> Now(host) == old(Now(host))
    ensures host.quiet && r.Some? ==> name in host.Live() && host.disk.files[host.Live()[name]].data == r.value
    ensures r.Some? ==> ReadAs(host.past, |old(host.past)| - 1, name, r.value)
    ensures host.quiet && Unrefused(host) && name in host.Live() && host.disk.files[host.Live()[name]].regular ==> r.Some?
    ensures host.removed == old(host.removed)
  {
    r := host.ReadText(name);
    if r.Some? { assert host.past[|host.past| - 1].disk.Shows(name, host.Live()[name], r.value); }
  }

  /** A statement inside the transaction, or its ROLLBACK. */
  method Statement(host: Host, job: Job) returns (refused: bool)
    requires Steady(job, host)
    modifies host
    ensures Steady(job, host) && Onward(host) && host.removed == old(host.removed)
    ensures Now(host) == old(Now(host)) && Appended(host, false)
    ensures host.refusals == old(host.refusals) + if refused then 1 else 0
  {
    refused := host.Refused();
  }

  method Commit(host: Host, job: Job, evidence: Evidence) returns (reported: bool)
    requires Steady(job, host)
    requires host.quiet ==> host.issued.None? && Inv(job, Now(host).(issued := Some(evidence)))
    modifies host
    ensures Steady(job, host) && Onward(host) && RemovedOnly(host, {}, {})
    ensures host.quiet ==> host.disk == old(host.disk) && (host.issued == Some(evidence) || (host.issued.None? && !reported))
    ensures host.quiet && Unrefused(host) ==> reported
    ensures host.removed == old(host.removed)
  {
    if host.quiet {
      NothingIssued(job, host);
    }
    reported := host.Commit(evidence);
  }

  lemma NothingIssued(job: Job, host: Host)
    requires Sound(job, host) && host.issued.None?
    ensures forall k :: 0 <= k < |host.past| ==> host.past[k].issued.None?
  {
    var last := |host.past| - 1;
    forall k | 0 <= k < |host.past|
      ensures host.past[k].issued.None?
    {
      assert host.past[k].issued.Some? ==> host.past[last].issued == host.past[k].issued;
    }
  }
}
