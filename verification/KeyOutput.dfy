/** Crash-recoverable delivery, recovery and settlement of one key output. */
module KeyOutput {
  import opened Wrappers
  import opened KeyDirectory
  import opened KeyOutputState
  import opened KeySteps

  /** What publication had done when it was interrupted. */
  datatype Progress = Progress(reservation: Option<Identity>, marker: Option<Marker>, markerId: Option<Identity>,
                               linked: bool)

  /** The evidence is for this job's request and for this raw key. */
  predicate Requested(job: Job, evidence: Evidence, rawKey: string) {
    && evidence.organization == job.organization && evidence.identity == job.identity
    && evidence.keyId == job.keyId && evidence.operation == job.operation
    && evidence.request == Request(job.organization, job.identity, job.keyId, job.expiresAt)
    && evidence.fingerprint == Hmac(rawKey) && KeyText(rawKey)
  }

  /** The marker's staging name. */
  function Staged(job: Job, token: string): string { StagingName(MarkerName(job.file), token) }

  /** The private copy is reached by its staging name. */
  ghost predicate StagedAt(job: Job, w: World, m: Marker, token: string, file: Inode, written: nat) {
    && Staging(job, w, m, file, written)
    && Staged(job, token) in w.disk.Live() && w.disk.Live()[Staged(job, token)] == file
  }

  /** The reserved inode, still empty behind its reservation. */
  ghost predicate Held(disk: Disk, m: Marker)
    requires |disk.dirs| > 0
  {
    m.target in disk.files && disk.files[m.target].Holds([]) && m.reservation in disk.Live() && disk.Live()[m.reservation] == m.target
  }

  /** A crash can leave a directory without this name. */
  ghost predicate MayBeLost(disk: Disk, name: string) { exists k :: 0 <= k < |disk.dirs| && name !in disk.dirs[k] }

  lemma StaysUncertain(before: Disk, after: Disk, name: string)
    requires MayBeLost(before, name) && before.dirs <= after.dirs
    ensures MayBeLost(after, name)
  {
    var k :| 0 <= k < |before.dirs| && name !in before.dirs[k];
    assert name !in after.dirs[k];
  }

  /** Writes the marker's text, however the writes are split. */
  method FillStaging(host: Host, job: Job, m: Marker, token: string, file: Inode) returns (ok: bool)
    requires Steady(job, host) && (host.quiet ==> StagedAt(job, Now(host), m, token, file, 0))
    modifies host
    ensures Steady(job, host) && Onward(host) && RemovedOnly(host, {}, {})
    ensures host.quiet ==> Now(host).issued.None? && host.disk.dirs == old(host.disk.dirs) && Held(host.disk, m)
    ensures host.quiet && ok ==> StagedAt(job, Now(host), m, token, file, MARKER_LENGTH)
    ensures host.quiet && Unrefused(host) ==> ok
  {
    hide Sound, Inv, UnwatchedAll, Encode;
    var payload, written := Encode(m), 0;
    while written < |payload|
      invariant written <= |payload| && Steady(job, host) && Onward(host) && RemovedOnly(host, {}, {})
      invariant host.quiet ==> StagedAt(job, Now(host), m, token, file, written)
      invariant host.quiet ==> host.disk.dirs == old(host.disk.dirs)
    {
      if host.quiet {
        Current(job, host);
        forall n | 0 <= n <= |payload[written..]|
          ensures var next := Now(host).(disk := host.disk.Wrote(file, payload[written..][..n]));
                  Inv(job, next) && Staging(job, next, m, file, written + n)
        {
          assert payload[written..][..n] == payload[written..written + n];
          StagingWritten(job, Now(host), m, file, written, n);
        }
      }
      var count := Write(host, job, file, payload[written..]);
      if count.None? || count.value == 0 {
        return false;
      }
      written := written + count.value;
    }
    return true;
  }

  /** The private copy is complete and durable. */
  ghost predicate StagedWhole(job: Job, w: World, m: Marker, token: string, file: Inode) {
    StagedAt(job, w, m, token, file, MARKER_LENGTH) && w.disk.files[file].Holds(Encode(m))
  }

  /** The marker's own name leads to that copy. */
  ghost predicate Claimed(job: Job, w: World, m: Marker, file: Inode) {
    && Holding(job, w, m) && Authored(job, m)
    && MarkerAt(job, w.disk.files, w.disk.Live()) == Some(m) && job.file !in w.disk.Live()
    && w.disk.Live()[MarkerName(job.file)] == file && w.disk.files[file].Holds(Encode(m))
  }

  lemma StagedThenLinked(job: Job, w: World, m: Marker, token: string, file: Inode)
    requires Inv(job, w) && StagedWhole(job, w, m, token, file) && Authored(job, m) && MarkerName(job.file) !in w.disk.Live()
    ensures var next := w.(disk := w.disk.Entered(MarkerName(job.file), file));
            Inv(job, next) && Claimed(job, next, m, file)
  {
    MarkerLinked(job, w, m, file);
  }

  lemma StagedThenSynced(job: Job, w: World, m: Marker, token: string, file: Inode)
    requires Inv(job, w) && StagedAt(job, w, m, token, file, MARKER_LENGTH)
    ensures var next := w.(disk := w.disk.FileSynced(file));
            Inv(job, next) && StagedWhole(job, next, m, token, file)
  {
    StagingSynced(job, w, m, file);
  }

  /** Completes the private copy and makes its bytes durable. */
  method StageMarker(host: Host, job: Job, m: Marker, token: string, file: Inode) returns (ok: bool)
    requires Steady(job, host) && (host.quiet ==> StagedAt(job, Now(host), m, token, file, 0))
    modifies host
    ensures Steady(job, host) && Onward(host) && RemovedOnly(host, {}, {})
    ensures host.quiet ==> host.issued.None? && host.Live() == old(host.Live()) && Held(host.disk, m)
    ensures host.quiet && ok ==> StagedWhole(job, Now(host), m, token, file)
    ensures host.quiet && Unrefused(host) ==> ok
  {
    hide Sound, Inv, UnwatchedAll, Holding, Encode;
    ok := FillStaging(host, job, m, token, file);
    if !ok { return; }
    if host.quiet {
      Current(job, host);
      StagedThenSynced(job, Now(host), m, token, file);
    }
    ok := SyncFile(host, job, file);
  }

  /** Fills and syncs the private copy, then links it under the marker's name. */
  method NameMarker(host: Host, job: Job, m: Marker, token: string, file: Inode) returns (ok: bool)
    requires Steady(job, host) && (host.quiet ==> Authored(job, m) && StagedAt(job, Now(host), m, token, file, 0))
    modifies host
    ensures Steady(job, host) && Onward(host) && RemovedOnly(host, {}, {})
    ensures host.quiet ==> host.issued.None? && Held(host.disk, m) && host.Live().Keys <= old(host.Live()).Keys + {MarkerName(job.file)}
    ensures host.quiet && ok ==> Claimed(job, Now(host), m, file) && Staged(job, token) in host.Live()
    ensures host.quiet && Unrefused(host) && MarkerName(job.file) !in old(host.Live()) ==> ok
    ensures host.quiet && MarkerName(job.file) !in old(host.Live()) ==> MayBeLost(host.disk, MarkerName(job.file))
  {
    hide Sound, Inv, UnwatchedAll, Encode, Authored;
    var name := MarkerName(job.file);
    ok := StageMarker(host, job, m, token, file);
    ghost var unmarked := host.disk;
    assert host.quiet && name !in old(host.Live()) ==> name !in unmarked.dirs[|unmarked.dirs| - 1];
    if !ok { return; }
    if host.quiet && name !in host.Live() {
      Current(job, host);
      StagedThenLinked(job, Now(host), m, token, file);
    }
    ok := Link(host, job, Staged(job, token), name);
    if host.quiet && name !in old(host.Live()) { StaysUncertain(unmarked, host.disk, name); }
  }

  /** The guarded part: fill, sync, link under the marker's name, drop the private copy, sync. */
  method LinkMarker(host: Host, job: Job, m: Marker, token: string, file: Inode) returns (ok: bool)
    requires Steady(job, host) && (host.quiet ==> Authored(job, m) && StagedAt(job, Now(host), m, token, file, 0))
    modifies host
    ensures Steady(job, host) && Onward(host) && RemovedOnly(host, {Staged(job, token)}, {})
    ensures host.quiet ==> host.issued.None? && Held(host.disk, m) && host.Live().Keys <= old(host.Live()).Keys + {MarkerName(job.file)}
    ensures host.quiet && ok ==>
              Reserved(job, Now(host), m) && host.Names(MarkerName(job.file), Identity(file, MARKER_LENGTH)) && Staged(job, token) !in host.Live()
    ensures host.quiet && Unrefused(host) && MarkerName(job.file) !in old(host.Live()) ==> ok
    ensures host.quiet && !ok && MarkerName(job.file) !in old(host.Live()) ==> MayBeLost(host.disk, MarkerName(job.file))
  {
    hide Sound, Inv, UnwatchedAll, Holding, Encode, Reserved, Authored, StagedAt;
    ok := NameMarker(host, job, m, token, file);
    if !ok { return; }
    ghost var named := host.disk;
    if host.quiet {
      Current(job, host);
      MarkerReserved(job, Now(host), m, token, file);
    }
    ok := UnlinkStaging(host, job, token);
    if host.quiet && MarkerName(job.file) !in old(host.Live()) { StaysUncertain(named, host.disk, MarkerName(job.file)); }
    if !ok { return; }
    ok := SyncDirectory(host, job);
  }

  lemma MarkerReserved(job: Job, w: World, m: Marker, token: string, file: Inode)
    requires Inv(job, w) && Claimed(job, w, m, file)
    ensures w.issued.None?
    ensures var disk := w.disk.Unlinked(Staged(job, token)).Synced();
            && Reserved(job, w.(disk := disk), m)
            && MarkerName(job.file) in disk.Live() && disk.Live()[MarkerName(job.file)] == file
            && file in disk.files && disk.files[file].Plain() && |disk.files[file].data| == MARKER_LENGTH
  {
    StagingApart(job.file, token);
    NamesApart(job.file, m.reservation, token);
    assert DirOk(job, w.disk.files, w.issued, w.disk.dirs[|w.disk.dirs| - 1]);
  }

  lemma AnyStaging(job: Job, w: World, m: Marker, token: string)
    requires Inv(job, w) && Holding(job, w, m) && Authored(job, m) && Staged(job, token) !in w.disk.Live()
    ensures forall t :: t !in w.disk.files ==>
              var next := w.(disk := w.disk.Created(Staged(job, token), t)); Inv(job, next) && StagedAt(job, next, m, token, t, 0)
  {
    forall t | t !in w.disk.files
      ensures var next := w.(disk := w.disk.Created(Staged(job, token), t)); Inv(job, next) && StagedAt(job, next, m, token, t, 0)
    {
      StagingCreated(job, w, m, token, t);
    }
  }

  /** Persists one marker without replacing prior evidence. */
  method WriteMarkerOnce(host: Host, job: Job, m: Marker, token: string) returns (id: Option<Identity>)
    requires Steady(job, host) && (host.quiet ==> Authored(job, m) && Holding(job, Now(host), m))
    modifies host
    ensures Steady(job, host) && Onward(host) && RemovedOnly(host, {Staged(job, token)}, {})
    ensures host.quiet ==> host.issued.None? && Held(host.disk, m)
    ensures host.quiet ==> host.Live().Keys <= old(host.Live()).Keys + {MarkerName(job.file), Staged(job, token)}
    ensures (
      && host.quiet && Staged(job, token) !in old(host.Live())
      && host.refusals <= old(host.refusals) + (if MarkerName(job.file) in old(host.Live()) then 0 else 1)
    ) ==> Staged(job, token) !in host.Live()
    ensures host.quiet && id.Some? ==> Reserved(job, Now(host), m) && host.Names(MarkerName(job.file), id.value)
    ensures host.quiet && id.None? && MarkerName(job.file) !in old(host.Live()) ==> MayBeLost(host.disk, MarkerName(job.file))
    ensures (
      && host.quiet && Unrefused(host) && MarkerName(job.file) !in old(host.Live()) && Staged(job, token) !in old(host.Live())
    ) ==> id.Some?
    ensures id.Some? ==> Saw(host.past, |old(host.past)| - 1, Staged(job, token), id.value.inode, [])
  {
    hide Sound, Inv, UnwatchedAll, Saw, Authored, Encode;
    if host.quiet && Staged(job, token) !in host.Live() {
      Current(job, host);
      AnyStaging(job, Now(host), m, token);
    }
    assert host.quiet ==> Held(host.disk, m);
    hide Holding;
    var file := Create(host, job, Staged(job, token));
    if file.None? {
      return None;
    }
    StagingApart(job.file, token);
    ghost var seen := host.past;
    var ok := LinkMarker(host, job, m, token, file.value);
    SawLater(seen, host.past, |old(host.past)| - 1, |old(host.past)| - 1, Staged(job, token), file.value, []);
    if !ok {
      ghost var unfinished := host.disk;
      var _ := UnlinkStaging(host, job, token);
      if host.quiet && MarkerName(job.file) !in old(host.Live()) { StaysUncertain(unfinished, host.disk, MarkerName(job.file)); }
      return None;
    }
    return Some(Identity(file.value, MARKER_LENGTH));
  }

  /** Only the output and the reservation may have come or gone, both leading to the reserved inode. */
  ghost predicate LinksMoved(before: Directory, after: Directory, job: Job, m: Marker) {
    && (forall n :: n !in {job.file, m.reservation} ==> (n in before <==> n in after) && (n in before ==> after[n] == before[n]))
    && (job.file in after ==> after[job.file] == m.target)
    && (m.reservation in after ==> after[m.reservation] == m.target)
  }

  /** In every state recorded since then, a crash can leave a directory without the reservation only when it leaves none without the output. */
  twostate predicate OutputFirst(host: Host, job: Job, m: Marker)
    reads host
  {
    forall k :: |old(host.past)| <= k < |host.past| ==> OutputBefore(host.past[k].disk.dirs, job, m)
  }

  ghost predicate OutputBefore(dirs: seq<Directory>, job: Job, m: Marker) {
    (forall i :: 0 <= i < |dirs| ==> m.reservation in dirs[i]) || forall i :: 0 <= i < |dirs| ==> job.file in dirs[i]
  }

  /** Output name and reservation both lead to the empty inode, and nothing else does. */
  ghost predicate BothNamed(job: Job, w: World, m: Marker) {
    && |w.disk.dirs| == 1 && w.issued.None? && MarkerAt(job, w.disk.files, w.disk.Live()) == Some(m)
    && m.target in w.disk.files && w.disk.files[m.target].Holds([]) && m.reservation !in {job.file, MarkerName(job.file)}
    && m.reservation in w.disk.Live() && w.disk.Live()[m.reservation] == m.target
    && job.file in w.disk.Live() && w.disk.Live()[job.file] == m.target
    && forall n :: n in w.disk.Live() && w.disk.Live()[n] == m.target ==> n == m.reservation || n == job.file
  }

  /** Links the reserved inode under the output name and makes that durable. */
  method EnterOutput(host: Host, job: Job, m: Marker) returns (linked: bool, ok: bool)
    requires Steady(job, host) && (host.quiet ==> Authored(job, m) && Reserved(job, Now(host), m))
    modifies host
    ensures Steady(job, host) && Onward(host) && RemovedOnly(host, {}, {})
    ensures host.quiet ==> host.issued.None? && (!linked ==> job.file !in host.Live())
    ensures host.quiet ==> host.disk.files == old(host.disk.files) && LinksMoved(old(host.Live()), host.Live(), job, m)
    ensures host.quiet ==> OutputFirst(host, job, m)
    ensures ok ==> linked
    ensures host.quiet && ok ==> BothNamed(job, Now(host), m)
    ensures host.quiet && Unrefused(host) ==> ok
  {
    hide Sound, Inv, Authored;
    linked, ok := false, false;
    if host.quiet {
      Current(job, host);
      OutputEntered(job, Now(host), m);
    }
    linked := Link(host, job, m.reservation, job.file);
    if !linked { return; }
    ok := SyncDirectory(host, job);
  }

  lemma OutputEntered(job: Job, w: World, m: Marker)
    requires Inv(job, w) && Reserved(job, w, m) && Authored(job, m)
    ensures var next := w.(disk := w.disk.Entered(job.file, m.target));
            Inv(job, next) && BothNamed(job, next.(disk := next.disk.Synced()), m)
  {
    NamesApart(job.file, m.reservation, "");
    var d := w.disk.Live();
    assert DirOk(job, w.disk.files, w.issued, w.disk.dirs[0]);
    assert DirOk(job, w.disk.files, None, d[job.file := m.target]);
    InvEntered(job, w, job.file, m.target);
  }

  /** Gives up the reservation, stated again because the link changed its inode, and makes that durable. */
  method GiveUpReservation(host: Host, job: Job, m: Marker) returns (ok: bool)
    requires Steady(job, host) && (host.quiet ==> Authored(job, m) && BothNamed(job, Now(host), m))
    modifies host
    ensures Steady(job, host) && Onward(host) && RemovedOnly(host, {}, {m.target})
    ensures host.quiet ==> host.issued.None? && job.file in host.Live()
    ensures host.quiet ==> host.disk.files == old(host.disk.files) && LinksMoved(old(host.Live()), host.Live(), job, m)
    ensures host.quiet ==> OutputFirst(host, job, m)
    ensures host.quiet && ok ==> Filling(job, Now(host), m, 0)
    ensures host.quiet && Unrefused(host) ==> ok
  {
    hide Sound, Inv;
    var id := Recorded(host, job, m.reservation, m);
    if id.None? || id.value.size != 0 { return false; }
    ok := UnlinkExact(host, job, m.reservation, id.value, true);
    if !ok { return; }
    ok := SyncDirectory(host, job);
    assert Secret(m)[..0] == [];
  }

  /** The output's name before its bytes: the reservation goes only once the name is durable. */
  method LinkOutput(host: Host, job: Job, m: Marker) returns (linked: bool, ok: bool)
    requires Steady(job, host) && (host.quiet ==> Authored(job, m) && Reserved(job, Now(host), m))
    modifies host
    ensures Steady(job, host) && Onward(host) && RemovedOnly(host, {}, {m.target})
    ensures host.quiet ==> host.issued.None? && (!linked ==> job.file !in host.Live())
    ensures host.quiet ==> host.disk.files == old(host.disk.files) && LinksMoved(old(host.Live()), host.Live(), job, m)
    ensures host.quiet ==> OutputFirst(host, job, m)
    ensures ok ==> linked
    ensures host.quiet && ok ==> Filling(job, Now(host), m, 0)
    ensures host.quiet && Unrefused(host) ==> ok
  {
    hide Sound, Inv, Authored, Reserved, BothNamed, Filling, OutputBefore;
    linked, ok := EnterOutput(host, job, m);
    if ok { ok := GiveUpReservation(host, job, m); }
  }

  /** Only the reserved inode changed, and it is still a private file no longer than the key. */
  ghost predicate WrittenInto(now: Disk, was: Disk, m: Marker) {
    && m.target in now.files && now.files[m.target].Plain() && |now.files[m.target].data| <= |Secret(m)|
    && forall i :: i in was.files && i != m.target ==> i in now.files && now.files[i] == was.files[i]
  }

  /** Writes the secret, however the writes are split, and syncs it and its directory. */
  method WriteSecret(host: Host, job: Job, m: Marker) returns (ok: bool)
    requires Steady(job, host) && (host.quiet ==> Filling(job, Now(host), m, 0))
    modifies host
    ensures Steady(job, host) && Onward(host) && RemovedOnly(host, {}, {})
    ensures host.quiet ==> host.issued.None? && host.Live() == old(host.Live()) && WrittenInto(host.disk, old(host.disk), m)
    ensures host.quiet && ok ==> Published(job, Now(host), m)
    ensures host.quiet && Unrefused(host) ==> ok
  {
    hide Sound, Inv;
    var payload, written := Secret(m), 0;
    while written < |payload|
      invariant written <= |payload| && Steady(job, host) && Onward(host) && RemovedOnly(host, {}, {})
      invariant host.quiet ==> Filling(job, Now(host), m, written) && host.Live() == old(host.Live())
      invariant host.quiet ==> WrittenInto(host.disk, old(host.disk), m)
    {
      if host.quiet {
        Current(job, host);
        forall n | 0 <= n <= |payload[written..]|
          ensures var next := Now(host).(disk := host.disk.Wrote(m.target, payload[written..][..n]));
                  Inv(job, next) && Filling(job, next, m, written + n)
        {
          assert payload[written..][..n] == payload[written..written + n];
          InvFilled(job, Now(host), m, written, n);
        }
      }
      var count := Write(host, job, m.target, payload[written..]);
      if count.None? || count.value == 0 {
        return false;
      }
      written := written + count.value;
    }
    if host.quiet {
      Current(job, host);
      InvFilledSynced(job, Now(host), m);
    }
    ok := SyncFile(host, job, m.target);
    if !ok { return; }
    ok := SyncDirectory(host, job);
  }

  /** What follows the marker: the output's name, then its bytes. */
  method PublishOutput(host: Host, job: Job, m: Marker) returns (linked: bool, ok: bool)
    requires Steady(job, host) && (host.quiet ==> Authored(job, m) && Reserved(job, Now(host), m))
    modifies host
    ensures Steady(job, host) && Onward(host) && RemovedOnly(host, {}, {m.target})
    ensures host.quiet ==> host.issued.None? && (!linked ==> job.file !in host.Live())
    ensures host.quiet ==> WrittenInto(host.disk, old(host.disk), m) && LinksMoved(old(host.Live()), host.Live(), job, m)
    ensures host.quiet && ok ==> Published(job, Now(host), m)
    ensures host.quiet && Unrefused(host) ==> ok
  {
    hide Sound, Inv, Authored, Published, Filling;
    linked, ok := LinkOutput(host, job, m);
    if ok { ok := WriteSecret(host, job, m); }
  }

  function MarkerFor(job: Job, rawKey: string, evidence: Evidence, token: string, inode: Inode): Marker {
    Marker(evidence, job.path, Sha256(Payload(rawKey)), KEY_OUTPUT_LENGTH, ReservationName(job.file, token), inode)
  }

  /** No marker is in place, and neither token names anything. */
  predicate Fresh(job: Job, d: Directory, token: string, stagingToken: string) {
    MarkerName(job.file) !in d && ReservationName(job.file, token) !in d && Staged(job, stagingToken) !in d
  }

  /** A new token: not the one a marker in place has recorded. */
  predicate NewToken(job: Job, w: World, token: string)
    requires |w.disk.dirs| > 0
  {
    var prior := MarkerAt(job, w.disk.files, w.disk.Live());
    prior.Some? ==> prior.value.reservation != ReservationName(job.file, token)
  }

  lemma ReservationCreated(job: Job, w: World, rawKey: string, evidence: Evidence, token: string, i: Inode)
    requires Inv(job, w) && w.issued.None? && Requested(job, evidence, rawKey) && Hex32(token) && |rawKey| + 1 == KEY_OUTPUT_LENGTH
    requires NewToken(job, w, token) && i !in w.disk.files && ReservationName(job.file, token) !in w.disk.Live()
    ensures var m := MarkerFor(job, rawKey, evidence, token, i);
            var next := w.(disk := w.disk.Created(ReservationName(job.file, token), i));
            Inv(job, next) && Authored(job, m) && Holding(job, next, m)
    ensures ReservationName(job.file, token) != job.file && ReservationName(job.file, token) != MarkerName(job.file)
    ensures MarkerName(job.file) !in w.disk.Live() ==> job.file !in w.disk.Live()
  {
    ReservationNameValid(job.file, token);
    NamesApart(job.file, ReservationName(job.file, token), "");
    assert DirOk(job, w.disk.files, w.issued, w.disk.dirs[|w.disk.dirs| - 1]);
    InvCreated(job, w, ReservationName(job.file, token), i);
  }

  /** The identities a publication notes are those of the files it made itself. */
  ghost predicate Made(job: Job, past: seq<World>, from: nat, token: string, stagingToken: string, p: Progress) {
    && (p.reservation.Some? ==> Saw(past, from, ReservationName(job.file, token), p.reservation.value.inode, []))
    && (p.markerId.Some? ==> Saw(past, from, Staged(job, stagingToken), p.markerId.value.inode, []))
  }

  lemma MadeLater(job: Job, past: seq<World>, more: seq<World>, from: nat, earlier: nat, token: string, stagingToken: string, p: Progress)
    requires past <= more && earlier <= from && Made(job, past, from, token, stagingToken, p)
    ensures Made(job, more, earlier, token, stagingToken, p)
  {
    hide Saw;
    if p.reservation.Some? { SawLater(past, more, from, earlier, ReservationName(job.file, token), p.reservation.value.inode, []); }
    if p.markerId.Some? { SawLater(past, more, from, earlier, Staged(job, stagingToken), p.markerId.value.inode, []); }
  }

  lemma MadeLinked(job: Job, past: seq<World>, from: nat, token: string, stagingToken: string, p: Progress, linked: bool)
    requires Made(job, past, from, token, stagingToken, p)
    ensures Made(job, past, from, token, stagingToken, p.(linked := linked))
  {
  }

  /** The guarded part of publication. */
  method Publish(host: Host, job: Job, rawKey: string, evidence: Evidence, token: string, stagingToken: string)
    returns (ok: bool, p: Progress)
    requires Steady(job, host) && Hex32(token) && |rawKey| + 1 == KEY_OUTPUT_LENGTH
    requires host.quiet ==> host.issued.None? && Requested(job, evidence, rawKey) && NewToken(job, Now(host), token)
    modifies host
    ensures Steady(job, host) && Onward(host)
    ensures p.marker.Some? ==>
              p.reservation.Some? && p.marker.value == MarkerFor(job, rawKey, evidence, token, p.reservation.value.inode)
    ensures p.marker.None? ==> !ok && p.markerId.None? && !p.linked
    ensures RemovedOnly(host, {Staged(job, stagingToken)}, if p.reservation.Some? then {p.reservation.value.inode} else {})
    ensures Made(job, host.past, |old(host.past)| - 1, token, stagingToken, p)
    ensures host.quiet ==> host.issued.None?
    ensures host.quiet && ok ==> p.marker.Some? && Published(job, Now(host), p.marker.value)
    ensures host.quiet && p.markerId.Some? && !p.linked ==> job.file !in host.Live()
    ensures host.quiet && !p.linked && job.file !in old(host.Live()) ==> job.file !in host.Live()
    ensures host.quiet && !ok && ReservationName(job.file, token) !in old(host.Live()) ==> Removable(job, host.disk, p, token)
    ensures host.quiet && p.markerId.None? && MarkerName(job.file) !in old(host.Live()) ==> MayBeLost(host.disk, MarkerName(job.file))
    ensures (
      host.quiet && Unrefused(host) && Fresh(job, old(host.Live()), token, stagingToken)
    ) ==> ok
  {
    hide Sound, Inv, Authored, Holding, Published, Filling, Saw;
    ghost var from := |host.past| - 1;
    ok, p := false, Progress(None, None, None, false);
    var reservation := ReservationName(job.file, token);
    if host.quiet && reservation !in host.Live() {
      Current(job, host);
      forall i | i !in host.disk.files
        ensures var next := Now(host).(disk := host.disk.Created(reservation, i));
                Inv(job, next) && Holding(job, next, MarkerFor(job, rawKey, evidence, token, i))
                && Authored(job, MarkerFor(job, rawKey, evidence, token, i))
      {
        ReservationCreated(job, Now(host), rawKey, evidence, token, i);
      }
    }
    ReservationNameApart(job.file, token, stagingToken);
    var made := Create(host, job, reservation);
    if made.None? { return; }
    var m := MarkerFor(job, rawKey, evidence, token, made.value);
    p := p.(reservation := Some(Identity(made.value, 0)), marker := Some(m));
    ghost var seen := host.past;
    var markerId := WriteMarkerOnce(host, job, m, stagingToken);
    SawLater(seen, host.past, from, from, reservation, made.value, []);
    if markerId.None? { return; }
    SawLater(host.past, host.past, |seen| - 1, from, Staged(job, stagingToken), markerId.value.inode, []);
    p := p.(markerId := markerId);
    assert Made(job, host.past, from, token, stagingToken, p);
    hide Made;
    seen := host.past;
    var linked;
    linked, ok := PublishOutput(host, job, m);
    MadeLater(job, seen, host.past, from, from, token, stagingToken, p);
    MadeLinked(job, host.past, from, token, stagingToken, p, linked);
    p := p.(linked := linked);
  }

  lemma ReservationNameApart(file: string, token: string, stagingToken: string)
    requires Hex32(token)
    ensures ReservationName(file, token) !in {file, MarkerName(file), StagingName(MarkerName(file), stagingToken)}
  {
    ReservationNameValid(file, token);
    NamesApart(file, ReservationName(file, token), stagingToken);
  }

  /** The name leads to the marker's recorded private file, of bounded size. */
  predicate IsRecorded(disk: Disk, name: string, m: Marker)
    requires |disk.dirs| > 0
  {
    && name in disk.Live() && disk.Live()[name] == m.target && m.target in disk.files
    && disk.files[m.target].Plain() && |disk.files[m.target].data| <= m.outputLength
  }

  /** Every name an interrupted publication made still leads to what it recorded. */
  ghost predicate Removable(job: Job, disk: Disk, p: Progress, token: string)
    requires disk.Ok()
  {
    var (d, reservation) := (disk.Live(), ReservationName(job.file, token));
    && (reservation in d ==> p.marker.Some? && IsRecorded(disk, reservation, p.marker.value))
    && (p.linked && job.file in d ==> p.marker.Some? && IsRecorded(disk, job.file, p.marker.value))
    && (p.markerId.Some? ==>
          && MarkerName(job.file) in d && d[MarkerName(job.file)] == p.markerId.value.inode
          && disk.files[p.markerId.value.inode].regular && |disk.files[p.markerId.value.inode].data| == p.markerId.value.size)
  }

  /** Removes `name` if it is there, refusing unless it still is the recorded file. */
  method RemoveRecorded(host: Host, job: Job, name: string, m: Option<Marker>, made: Option<Identity>) returns (ok: bool)
    requires Steady(job, host) && name != MarkerName(job.file) && (host.quiet ==> host.issued.None?)
    requires m.Some? ==> made.Some? && made.value.inode == m.value.target
    modifies host
    ensures Steady(job, host) && Onward(host) && (host.quiet ==> host.issued.None?)
    ensures RemovedOnly(host, {}, if made.Some? then {made.value.inode} else {})
    ensures host.quiet ==> host.disk.files == old(host.disk.files)
    ensures host.quiet ==> host.Live() == old(host.Live()) || host.Live() == old(host.Live()) - {name}
    ensures host.quiet && ok ==> name !in host.Live() && (name in old(host.Live()) ==> host.disk.dirs == [host.Live()])
    ensures host.quiet && job.file !in old(host.Live()) ==> job.file !in host.Live()
    ensures host.quiet && Unrefused(host) && (name in old(host.Live()) ==> m.Some? && old(IsRecorded(host.disk, name, m.value))) ==> ok
  {
    hide Sound, Inv;
    var there := Exists(host, job, name);
    if !there { return true; }
    var id := made;
    if m.Some? {
      id := Recorded(host, job, name, m.value);
    }
    if id.None? { return false; }
    ok := UnlinkExact(host, job, name, id.value, true);
    if !ok { return; }
    ok := SyncDirectory(host, job);
  }

  /** All that is left is the marker, whose identity was taken before it was linked. */
  ghost predicate MarkerLeft(job: Job, host: Host, p: Progress, token: string)
    reads host
    requires host.disk.Ok()
  {
    p.markerId.Some? && job.file !in host.Live() && ReservationName(job.file, token) !in host.Live()
  }

  /** Undoes an interrupted publication, entry by entry, only where each entry is still the recorded file. */
  method CleanUp(host: Host, job: Job, p: Progress, token: string) returns (cleaned: bool)
    requires Steady(job, host) && Hex32(token)
    requires p.marker.Some? ==> p.reservation.Some? && p.marker.value.target == p.reservation.value.inode
    requires p.marker.None? ==> p.markerId.None? && !p.linked
    requires host.quiet ==> host.issued.None? && (p.markerId.Some? && !p.linked ==> job.file !in host.Live())
    modifies host
    ensures Steady(job, host) && Onward(host) && (host.quiet ==> host.issued.None?)
    ensures RemovedOnly(host, {}, (if p.reservation.Some? then {p.reservation.value.inode} else {})
                                  + (if p.markerId.Some? then {p.markerId.value.inode} else {}))
    ensures host.quiet && cleaned ==> Undone(job, host, p, token)
    ensures host.quiet && job.file !in old(host.Live()) ==> job.file !in host.Live()
    ensures host.quiet && Unrefused(host) && old(Removable(job, host.disk, p, token)) ==>
              cleaned || (MarkerLeft(job, host, p, token) && host.outdated > old(host.outdated))
  {
    hide Sound, Inv;
    var reservation := ReservationName(job.file, token);
    ReservationNameApart(job.file, token, token);
    cleaned := true;
    if p.linked {
      cleaned := RemoveRecorded(host, job, job.file, p.marker, p.reservation);
      if !cleaned { return; }
    }
    cleaned := RemoveRecorded(host, job, reservation, p.marker, p.reservation);
    if !cleaned { return; }
    if p.markerId.Some? {
      cleaned := UnlinkExact(host, job, MarkerName(job.file), p.markerId.value, false);
      if !cleaned { return; }
      cleaned := SyncDirectory(host, job);
    }
  }

  /** No name this publication made is left, and once its marker was durable, nothing at all. */
  ghost predicate Undone(job: Job, host: Host, p: Progress, token: string)
    reads host
    requires host.disk.Ok()
  {
    && ReservationName(job.file, token) !in host.Live()
    && (p.linked ==> job.file !in host.Live())
    && (p.markerId.Some? ==> job.file !in host.Live() && MarkerName(job.file) !in host.Live() && host.disk.dirs == [host.Live()])
  }

  /** `Undid` re-raises the publication error; `Preserved` stops with whatever evidence is left. */
  datatype Delivery = Delivered(marker: Marker) | Undid | Preserved

  /** Publishes one key behind its marker, or undoes what it published. */
  method Deliver(host: Host, job: Job, rawKey: string, evidence: Evidence, token: string, stagingToken: string)
    returns (r: Delivery, ghost p: Progress)
    requires Steady(job, host) && Hex32(token)
    requires host.quiet ==> host.issued.None? && Requested(job, evidence, rawKey) && NewToken(job, Now(host), token)
    modifies host
    ensures Steady(job, host) && Onward(host)
    ensures RemovedOnly(host, {Staged(job, stagingToken)},
                        (if p.reservation.Some? then {p.reservation.value.inode} else {})
                        + (if p.markerId.Some? then {p.markerId.value.inode} else {}))
    ensures Made(job, host.past, |old(host.past)| - 1, token, stagingToken, p)
    ensures r.Delivered? ==> r.marker.output == Sha256(Payload(rawKey))
    ensures host.quiet ==> host.issued.None?
    ensures host.quiet && r.Delivered? ==> Published(job, Now(host), r.marker) && r.marker.evidence == evidence
    ensures host.quiet && r.Undid? && |rawKey| + 1 == KEY_OUTPUT_LENGTH ==> Undone(job, host, p, token)
    ensures host.quiet && r.Undid? && job.file !in old(host.Live()) ==> job.file !in host.Live()
    ensures host.quiet && !r.Delivered? && Fresh(job, old(host.Live()), token, stagingToken) && host.refusals <= old(host.refusals) + 1 ==>
              r.Undid? || (MarkerLeft(job, host, p, token) && host.outdated > old(host.outdated))
    ensures |rawKey| + 1 != KEY_OUTPUT_LENGTH ==> r.Undid? && Now(host) == old(Now(host))
    ensures (
      host.quiet && Unrefused(host) && |rawKey| + 1 == KEY_OUTPUT_LENGTH && Fresh(job, old(host.Live()), token, stagingToken)
    ) ==> r.Delivered?
  {
    hide Sound, Inv, Published, Saw;
    p := Progress(None, None, None, false);
    if |rawKey| + 1 != KEY_OUTPUT_LENGTH { return Undid, p; }
    hide Made;
    var ok, progress := Publish(host, job, rawKey, evidence, token, stagingToken);
    p := progress;
    if ok { return Delivered(progress.marker.value), p; }
    ghost var seen := host.past;
    var cleaned := CleanUp(host, job, progress, token);
    MadeLater(job, seen, host.past, |old(host.past)| - 1, |old(host.past)| - 1, token, stagingToken, p);
    r := if cleaned then Undid else Preserved;
  }

  /** The complete marker in place and the identity of its file. */
  method ReadMarker(host: Host, job: Job) returns (r: Option<(Marker, Identity)>)
    requires Steady(job, host)
    modifies host
    ensures Steady(job, host) && Onward(host) && RemovedOnly(host, {}, {})
    ensures host.quiet ==> Now(host) == old(Now(host)) && Appended(host, false)
    ensures host.quiet && r.Some? ==>
              host.Names(MarkerName(job.file), r.value.1) && MarkerAt(job, host.disk.files, host.Live()) == Some(r.value.0)
    ensures host.quiet && Unrefused(host) && MarkerName(job.file) in host.Live() ==> r.Some?
    ensures r.Some? ==> Saw(host.past, |old(host.past)| - 1, MarkerName(job.file), r.value.1.inode, Encode(r.value.0))
  {
    hide Saw;
    if host.quiet && MarkerName(job.file) in host.Live() {
      Current(job, host);
      assert DirOk(job, host.disk.files, host.issued, host.disk.dirs[|host.disk.dirs| - 1]);
    }
    var text := ReadFile(host, job, MarkerName(job.file), MARKER_LIMIT);
    if text.None? || Decode(text.value.0).None? {
      return None;
    }
    return Some((Decode(text.value.0).value, text.value.1));
  }

  /** The output's identity when its bytes are exactly the marker's. */
  method ExactOutput(host: Host, job: Job, m: Marker) returns (id: Option<Identity>)
    requires Steady(job, host)
    modifies host
    ensures Steady(job, host) && Onward(host) && RemovedOnly(host, {}, {})
    ensures host.quiet ==> Now(host) == old(Now(host)) && Appended(host, false)
    ensures host.quiet && id.Some? ==>
              host.Names(job.file, id.value) && Sha256(host.disk.files[id.value.inode].data) == m.output
    ensures id.Some? ==> Saw(host.past, |old(host.past)| - 1, job.file, id.value.inode, m.output.of)
    ensures (
      && host.quiet && Unrefused(host) && Authored(job, m)
      && job.file in host.Live() && host.disk.files[host.Live()[job.file]].Holds(Secret(m))
    ) ==> id.Some?
  {
    hide Saw;
    var r := ReadFile(host, job, job.file, m.outputLength);
    if r.None? || |r.value.0| != m.outputLength || Sha256(r.value.0) != m.output {
      return None;
    }
    return Some(r.value.1);
  }

  /** The inodes of these identities. */
  ghost function Inodes(output: Option<Identity>, seen: Option<(Marker, Identity)>): set<Inode> {
    (if output.Some? then {output.value.inode} else {}) + (if seen.Some? then {seen.value.1.inode} else {})
  }

  /** Output and marker are gone, whatever crash follows. */
  ghost predicate Erased(job: Job, w: World)
    requires |w.disk.dirs| > 0
  {
    job.file !in w.disk.Live() && MarkerName(job.file) !in w.disk.Live() && w.disk.dirs == [w.disk.Live()]
  }

  /** Removes exact-owned output and then its marker, after the database proved rollback. */
  method RollBack(host: Host, job: Job, m: Marker) returns (ok: bool, ghost output: Option<Identity>, ghost seen: Option<(Marker, Identity)>)
    requires Steady(job, host)
    requires host.quiet ==> host.issued.None? && Published(job, Now(host), m) && Authored(job, m)
    modifies host
    ensures Steady(job, host) && Onward(host) && (host.quiet ==> host.issued.None?)
    ensures RemovedOnly(host, {}, Inodes(output, seen))
    ensures output.Some? ==>
              && SawNone(host.past, |old(host.past)| - 1, m.reservation)
              && Saw(host.past, |old(host.past)| - 1, job.file, output.value.inode, m.output.of)
    ensures seen.Some? ==> Saw(host.past, |old(host.past)| - 1, MarkerName(job.file), seen.value.1.inode, Encode(seen.value.0))
    ensures host.quiet && ok ==> Erased(job, Now(host))
    ensures host.quiet && Unrefused(host) ==> ok
  {
    hide Sound, Inv, Authored, Saw, SawNone, Encode;
    ok, output, seen := false, None, None;
    ghost var from := |host.past| - 1;
    NameApart(job.file);
    var held := Exists(host, job, m.reservation);
    if held { return; }
    ghost var past := host.past;
    ghost var unheld := host.past;
    var id := ExactOutput(host, job, m);
    if id.None? { return; }
    output := id;
    SawLater(host.past, host.past, |past| - 1, from, job.file, id.value.inode, m.output.of);
    past := host.past;
    ok := RemoveOutput(host, job, id.value);
    SawLater(past, host.past, from, from, job.file, id.value.inode, m.output.of);
    SawNoneLater(unheld, host.past, from, from, m.reservation);
    if !ok { return; }
    past := host.past;
    ok, seen := RemoveMarker(host, job);
    SawNoneLater(unheld, host.past, from, from, m.reservation);
    SawLater(past, host.past, from, from, job.file, id.value.inode, m.output.of);
    if seen.Some? { SawLater(host.past, host.past, |past| - 1, from, MarkerName(job.file), seen.value.1.inode, Encode(seen.value.0)); }
  }

  method RemoveOutput(host: Host, job: Job, id: Identity) returns (ok: bool)
    requires Steady(job, host) && (host.quiet ==> host.issued.None?)
    modifies host
    ensures Steady(job, host) && Onward(host) && RemovedOnly(host, {}, {id.inode})
    ensures host.quiet ==> host.issued.None?
    ensures host.quiet && ok ==> host.disk.dirs == [old(host.Live()) - {job.file}]
    ensures host.quiet && Unrefused(host) && old(host.Names(job.file, id)) ==> ok
  {
    hide Sound, Inv;
    ok := UnlinkExact(host, job, job.file, id, true);
    if !ok { return; }
    ok := SyncDirectory(host, job);
  }

  /** Removes the marker in place, once the output is gone. */
  method RemoveMarker(host: Host, job: Job) returns (ok: bool, ghost seen: Option<(Marker, Identity)>)
    requires Steady(job, host) && (host.quiet ==> job.file !in host.Live() || host.issued.Some?)
    modifies host
    ensures Steady(job, host) && Onward(host) && RemovedOnly(host, {}, if seen.Some? then {seen.value.1.inode} else {})
    ensures seen.Some? ==> Saw(host.past, |old(host.past)| - 1, MarkerName(job.file), seen.value.1.inode, Encode(seen.value.0))
    ensures host.quiet ==> host.issued == old(host.issued)
    ensures host.quiet && ok ==> host.disk.dirs == [old(host.Live()) - {MarkerName(job.file)}]
    ensures host.quiet && Unrefused(host) && MarkerName(job.file) in old(host.Live()) ==> ok
  {
    hide Sound, Inv, Saw, Encode;
    ok, seen := false, None;
    var r := ReadMarker(host, job);
    if r.None? { return; }
    seen := r;
    ghost var past := host.past;
    ok := UnlinkExact(host, job, MarkerName(job.file), r.value.1, true);
    SawLater(past, host.past, |old(host.past)| - 1, |old(host.past)| - 1, MarkerName(job.file), r.value.1.inode, Encode(r.value.0));
    if !ok { return; }
    past := host.past;
    ok := SyncDirectory(host, job);
    SawLater(past, host.past, |old(host.past)| - 1, |old(host.past)| - 1, MarkerName(job.file), r.value.1.inode, Encode(r.value.0));
  }

  lemma NameApart(file: string)
    ensures file != MarkerName(file)
  {
    assert |file| < |MarkerName(file)|;
  }

  /** The committed output in place: exactly the committed key. */
  ghost predicate Committed(job: Job, w: World)
    requires |w.disk.dirs| > 0
  {
    && w.issued.Some? && job.file in w.disk.Live() && w.disk.Live()[job.file] in w.disk.files
    && w.disk.files[w.disk.Live()[job.file]].Holds(Payload(w.issued.value.fingerprint.rawKey))
  }

  /** What the invariant says of a marker in place. */
  lemma MarkerInPlace(job: Job, w: World)
    requires Inv(job, w) && MarkerName(job.file) in w.disk.Live()
    ensures var m := MarkerAt(job, w.disk.files, w.disk.Live());
            && m.Some? && Authored(job, m.value) && m.value.reservation !in {job.file, MarkerName(job.file)}
            && m.value.target in w.disk.files && w.disk.files[m.value.target].Plain()
            && |w.disk.files[m.value.target].data| <= KEY_OUTPUT_LENGTH
            && (m.value.reservation in w.disk.Live() ==>
                  w.disk.Live()[m.value.reservation] == m.value.target && w.disk.files[m.value.target].data == [])
            && (job.file in w.disk.Live() ==> w.disk.Live()[job.file] == m.value.target)
            && (w.issued.Some? ==> m.value.reservation !in w.disk.Live() && w.issued.value == m.value.evidence && Committed(job, w))
  {
    assert DirOk(job, w.disk.files, w.issued, w.disk.dirs[|w.disk.dirs| - 1]);
    var m := MarkerAt(job, w.disk.files, w.disk.Live()).value;
    NamesApart(job.file, m.reservation, "");
    var f := w.disk.files[m.target];
    assert f.data in f.Versions();
  }

  /** Removes a committed output's marker. */
  method Settle(host: Host, job: Job) returns (ok: bool, ghost seen: Option<(Marker, Identity)>)
    requires Steady(job, host) && (host.quiet ==> host.issued.Some?)
    modifies host
    ensures Steady(job, host) && Onward(host) && RemovedOnly(host, {}, if seen.Some? then {seen.value.1.inode} else {})
    ensures seen.Some? ==>
              && SawNone(host.past, |old(host.past)| - 1, seen.value.0.reservation)
              && ReadAs(host.past, |old(host.past)| - 1, job.file, seen.value.0.output.of)
    ensures seen.Some? ==> Saw(host.past, |old(host.past)| - 1, MarkerName(job.file), seen.value.1.inode, Encode(seen.value.0))
    ensures host.quiet ==> host.issued == old(host.issued) && host.disk.files == old(host.disk.files)
    ensures host.quiet && ok ==> MarkerName(job.file) in old(host.Live()) && host.disk.dirs == [old(host.Live()) - {MarkerName(job.file)}]
    ensures host.quiet && Unrefused(host) && MarkerName(job.file) in old(host.Live()) ==> ok
  {
    hide Sound, Inv, Authored, Saw, SawNone, ReadAs, Encode;
    ok, seen := false, None;
    ghost var from := |host.past| - 1;
    if host.quiet && MarkerName(job.file) in host.Live() {
      Current(job, host);
      MarkerInPlace(job, Now(host));
    }
    var r := ReadMarker(host, job);
    if r.None? || !ReservationValid(job.file, r.value.0.reservation) { return; }
    ghost var past := host.past;
    var held := Exists(host, job, r.value.0.reservation);
    if held { return; }
    ghost var unheld := host.past;
    var id := ExactOutput(host, job, r.value.0);
    if id.None? { return; }
    ghost var exact := host.past;
    seen := r;
    ok := Drop(host, job, MarkerName(job.file), r.value.1);
    SawNoneLater(unheld, host.past, |past| - 1, from, r.value.0.reservation);
    SawReadLater(exact, host.past, |unheld| - 1, from, job.file, id.value.inode, r.value.0.output.of);
    SawLater(past, host.past, from, from, MarkerName(job.file), r.value.1.inode, Encode(r.value.0));
  }

  /** What a retry learns: it may issue, the committed output survived, or it must stop. */
  datatype Recovery =
    | Proceed
    | Recovered(keyId: string, prefix: string)
    | Refused
    | OutcomeUnknown(keyId: string, prefix: string)

  /** In every state recorded since then, the marker goes only after output and reservation. */
  twostate predicate MarkerLast(host: Host, job: Job, reservation: string)
    reads host
  {
    forall k :: |old(host.past)| <= k < |host.past| && |host.past[k].disk.dirs| > 0 ==>
      var d := host.past[k].disk.Live();
      MarkerName(job.file) in d || (job.file !in d && reservation !in d)
  }

  /** Every state recorded since then has this directory live. */
  twostate predicate AllLive(host: Host, d: Directory)
    reads host
  {
    forall k :: |old(host.past)| <= k < |host.past| && |host.past[k].disk.dirs| > 0 ==> host.past[k].disk.Live() == d
  }

  /** Unlinks one verified entry and makes that durable. */
  method Drop(host: Host, job: Job, name: string, id: Identity) returns (ok: bool)
    requires Steady(job, host)
    requires host.quiet && name == job.file ==> host.issued.None?
    requires host.quiet && name == MarkerName(job.file) ==> job.file !in host.Live() || host.issued.Some?
    modifies host
    ensures Steady(job, host) && Onward(host) && RemovedOnly(host, {}, {id.inode})
    ensures host.quiet ==> host.issued == old(host.issued) && host.disk.files == old(host.disk.files)
    ensures host.quiet ==> AllLive(host, old(host.Live()) - {name})
    ensures host.quiet ==> host.Live() == old(host.Live()) || host.Live() == old(host.Live()) - {name}
    ensures host.quiet && ok ==> host.disk.dirs == [old(host.Live()) - {name}]
    ensures host.quiet && Unrefused(host) && old(host.Names(name, id)) ==> ok
  {
    hide Sound, Inv;
    ok := UnlinkExact(host, job, name, id, true);
    if !ok { return; }
    ok := SyncDirectory(host, job);
  }

  /** Output and reservation of a publication that never committed, each refused unless still the recorded file. */
  method Inspect(host: Host, job: Job, m: Marker) returns (ok: bool, output: Option<Identity>, reservation: Option<Identity>)
    requires Steady(job, host)
    requires host.quiet ==> MarkerName(job.file) in host.Live() && MarkerAt(job, host.disk.files, host.Live()) == Some(m)
    modifies host
    ensures Steady(job, host) && Onward(host) && RemovedOnly(host, {}, {})
    ensures host.quiet ==> Now(host) == old(Now(host)) && Appended(host, false)
    ensures output.Some? ==> output.value.inode == m.target
    ensures host.quiet ==> m.reservation != job.file
    ensures host.quiet && ok ==>
              && (if output.Some? then host.Names(job.file, output.value) else job.file !in host.Live())
              && (reservation.Some? <==> m.reservation in host.Live())
    ensures host.quiet && Unrefused(host) ==> ok
  {
    hide Sound, Inv, Authored, Committed;
    if host.quiet {
      Current(job, host);
      MarkerInPlace(job, Now(host));
      MarkerBounds(job, Now(host));
    }
    output, reservation := None, None;
    var outputThere := Exists(host, job, job.file);
    var reservationThere := Exists(host, job, m.reservation);
    if outputThere { output := Recorded(host, job, job.file, m); }
    if reservationThere { reservation := Recorded(host, job, m.reservation, m); }
    ok := (outputThere ==> output.Some?) && (reservationThere ==> reservation.Some? && reservation.value.size == 0);
  }

  lemma MarkerBounds(job: Job, w: World)
    requires Inv(job, w) && MarkerName(job.file) in w.disk.Live()
    ensures MarkerAt(job, w.disk.files, w.disk.Live()).Some?
    ensures MarkerAt(job, w.disk.files, w.disk.Live()).value.outputLength == KEY_OUTPUT_LENGTH
  {
    MarkerInPlace(job, w);
  }

  method DiscardEntries(host: Host, job: Job, m: Marker) returns (ok: bool)
    requires Steady(job, host) && m.reservation != MarkerName(job.file)
    requires host.quiet ==> host.issued.None? && MarkerName(job.file) in host.Live() && MarkerAt(job, host.disk.files, host.Live()) == Some(m)
    modifies host
    ensures Steady(job, host) && Onward(host) && RemovedOnly(host, {}, {m.target})
    ensures host.quiet ==> host.Live().Keys <= old(host.Live()).Keys
    ensures host.quiet ==> host.issued.None? && host.disk.files == old(host.disk.files) && MarkerLast(host, job, m.reservation)
    ensures host.quiet ==> MarkerName(job.file) in host.Live() && host.Live()[MarkerName(job.file)] == old(host.Live()[MarkerName(job.file)])
    ensures host.quiet && ok ==> job.file !in host.Live() && m.reservation !in host.Live()
    ensures host.quiet && Unrefused(host) ==> ok
  {
    hide Sound, Inv, Authored, Committed;
    NameApart(job.file);
    var output, reservation;
    ok, output, reservation := Inspect(host, job, m);
    if !ok { return; }
    if output.Some? {
      ok := Drop(host, job, job.file, output.value);
      if !ok { return; }
    }
    if reservation.Some? {
      ok := DropReservation(host, job, m);
    }
  }

  /** The reservation is stated again before it goes: unlinking the output changed the shared inode. */
  method DropReservation(host: Host, job: Job, m: Marker) returns (ok: bool)
    requires Steady(job, host) && m.reservation != MarkerName(job.file)
    requires host.quiet ==> host.issued.None? && MarkerName(job.file) in host.Live() && MarkerAt(job, host.disk.files, host.Live()) == Some(m)
    modifies host
    ensures Steady(job, host) && Onward(host) && RemovedOnly(host, {}, {m.target})
    ensures host.quiet ==> host.issued.None? && host.disk.files == old(host.disk.files)
    ensures host.quiet ==> AllLive(host, old(host.Live()) - {m.reservation})
    ensures host.quiet ==> host.Live() == old(host.Live()) || host.Live() == old(host.Live()) - {m.reservation}
    ensures host.quiet && ok ==> host.Live() == old(host.Live()) - {m.reservation}
    ensures host.quiet && Unrefused(host) && m.reservation in old(host.Live()) ==> ok
  {
    hide Sound, Inv, Authored, Committed;
    if host.quiet {
      Current(job, host);
      MarkerInPlace(job, Now(host));
      MarkerBounds(job, Now(host));
    }
    var current := Recorded(host, job, m.reservation, m);
    if current.None? || current.value.size != 0 { return false; }
    ok := Drop(host, job, m.reservation, current.value);
  }

  /** Removes an interrupted publication that never committed: output, reservation, then marker. */
  method DiscardOutput(host: Host, job: Job, m: Marker, markerId: Identity) returns (ok: bool)
    requires Steady(job, host) && m.reservation != MarkerName(job.file)
    requires host.quiet ==> host.issued.None? && host.Names(MarkerName(job.file), markerId)
    requires host.quiet ==> MarkerAt(job, host.disk.files, host.Live()) == Some(m)
    modifies host
    ensures Steady(job, host) && Onward(host) && RemovedOnly(host, {}, {m.target, markerId.inode})
    ensures host.quiet ==> host.Live().Keys <= old(host.Live()).Keys
    ensures host.quiet ==> host.issued.None? && MarkerLast(host, job, m.reservation)
    ensures host.quiet && ok ==>
              && MarkerName(job.file) !in host.Live() && job.file !in host.Live() && m.reservation !in host.Live()
              && host.disk.dirs == [host.Live()]
    ensures host.quiet && Unrefused(host) ==> ok
  {
    hide Sound, Inv, Authored;
    ok := DiscardEntries(host, job, m);
    if !ok { return; }
    ok := Drop(host, job, MarkerName(job.file), markerId);
  }

  /** The committed output was seen intact: the reservation gone, and exactly the recorded bytes under the output name. */
  ghost predicate SeenIntact(job: Job, past: seq<World>, from: nat, m: Marker) {
    SawNone(past, from, m.reservation) && ReadAs(past, from, job.file, m.output.of)
  }

  /** What each answer rests on, whatever other processes do: no marker was seen, or one of this command's, and a recovered output was seen
      intact. */
  ghost predicate Grounded(job: Job, past: seq<World>, from: nat, r: Recovery, seen: Option<(Marker, Identity)>) {
    match r
    case Refused => true
    case Proceed => if seen.None? then SawNone(past, from, MarkerName(job.file)) else Accepted(job, seen.value.0)
    case OutcomeUnknown(keyId, prefix) =>
      seen.Some? && Accepted(job, seen.value.0) && (keyId, prefix) == (seen.value.0.evidence.keyId, seen.value.0.evidence.prefix)
    case Recovered(keyId, prefix) =>
      && seen.Some? && Accepted(job, seen.value.0) && (keyId, prefix) == (seen.value.0.evidence.keyId, seen.value.0.evidence.prefix)
      && SeenIntact(job, past, from, seen.value.0)
  }

  predicate Accepted(job: Job, m: Marker) { ReservationValid(job.file, m.reservation) && Fits(job, m) }

  /** The three outcomes the database can prove or not, for one marker that fits the command. */
  method Resolve(host: Host, job: Job, m: Marker, markerId: Identity) returns (r: Recovery)
    requires Steady(job, host) && m.reservation !in {job.file, MarkerName(job.file)}
    requires host.quiet ==> host.Names(MarkerName(job.file), markerId) && MarkerAt(job, host.disk.files, host.Live()) == Some(m)
    modifies host
    ensures Steady(job, host) && Onward(host) && RemovedOnly(host, {}, {m.target, markerId.inode})
    ensures host.quiet ==> host.Live().Keys <= old(host.Live()).Keys
    ensures host.quiet ==> host.issued == old(host.issued) && MarkerLast(host, job, m.reservation)
    ensures host.quiet && (old(host.issued).Some? || r.Recovered? || r.OutcomeUnknown?) ==> Now(host) == old(Now(host))
    ensures host.quiet && r.Proceed? ==>
              && host.issued.None? && MarkerName(job.file) !in host.Live() && job.file !in host.Live()
              && m.reservation !in host.Live() && host.disk.dirs == [host.Live()]
    ensures host.quiet && r.Recovered? ==>
              Committed(job, Now(host)) && r == Recovered(host.issued.value.keyId, host.issued.value.prefix)
    ensures host.quiet && Unrefused(host) ==> if host.issued.Some? then r.Recovered? else r.Proceed?
    ensures r in {Proceed, Refused, OutcomeUnknown(m.evidence.keyId, m.evidence.prefix), Recovered(m.evidence.keyId, m.evidence.prefix)}
    ensures r.Recovered? ==> SeenIntact(job, host.past, |old(host.past)| - 1, m)
  {
    hide Sound, Inv, Committed, Authored, Saw, SawNone, ReadAs;
    ghost var from := |host.past| - 1;
    if host.quiet {
      Current(job, host);
      MarkerInPlace(job, Now(host));
    }
    var outcome := Reconcile(host, job, m.evidence);
    if outcome == Some(false) {
      var ok := DiscardOutput(host, job, m, markerId);
      return if ok then Proceed else Refused;
    }
    if outcome == Some(true) {
      ghost var past := host.past;
      var exact := ExactOutput(host, job, m);
      ghost var read := host.past;
      var held := Exists(host, job, m.reservation);
      if exact.None? || held { return Refused; }
      SawReadLater(read, host.past, |past| - 1, from, job.file, exact.value.inode, m.output.of);
      SawNoneLater(host.past, host.past, |read| - 1, from, m.reservation);
      return Recovered(m.evidence.keyId, m.evidence.prefix);
    }
    return OutcomeUnknown(m.evidence.keyId, m.evidence.prefix);
  }

  lemma IntactLater(job: Job, past: seq<World>, from: nat, earlier: nat, m: Marker)
    requires earlier <= from && SeenIntact(job, past, from, m)
    ensures SeenIntact(job, past, earlier, m)
  {
    SawNoneLater(past, past, from, earlier, m.reservation);
  }

  /** Reconciles one interrupted publication before a retry. */
  method Recover(host: Host, job: Job) returns (r: Recovery, ghost seen: Option<(Marker, Identity)>)
    requires Steady(job, host)
    modifies host
    ensures Steady(job, host) && Onward(host)
    ensures host.quiet ==> host.Live().Keys <= old(host.Live()).Keys
    ensures RemovedOnly(host, {}, if seen.Some? then {seen.value.0.target, seen.value.1.inode} else {})
    ensures seen.Some? ==> Saw(host.past, |old(host.past)| - 1, MarkerName(job.file), seen.value.1.inode, Encode(seen.value.0))
    ensures host.quiet ==> host.issued == old(host.issued)
    ensures host.quiet ==> seen.Some? ==> MarkerAt(job, old(host.disk.files), old(host.Live())) == Some(seen.value.0)
    ensures host.quiet && seen.Some? ==> MarkerLast(host, job, seen.value.0.reservation)
    ensures host.quiet && (old(host.issued).Some? || r.Recovered? || r.OutcomeUnknown? || MarkerName(job.file) !in old(host.Live())) ==>
              Now(host) == old(Now(host))
    ensures host.quiet && r.Proceed? ==> MarkerName(job.file) !in host.Live()
    ensures host.quiet && r.Proceed? && MarkerName(job.file) in old(host.Live()) ==>
              && seen.Some? && host.issued.None? && job.file !in host.Live()
              && seen.value.0.reservation !in host.Live() && host.disk.dirs == [host.Live()]
    ensures host.quiet && r.Recovered? ==>
              Committed(job, Now(host)) && r == Recovered(host.issued.value.keyId, host.issued.value.prefix)
              && MarkerName(job.file) in host.Live()
    ensures host.quiet && Unrefused(host) ==>
              if MarkerName(job.file) in old(host.Live()) && host.issued.Some? then r.Recovered? else r.Proceed?
    ensures Grounded(job, host.past, |old(host.past)| - 1, r, seen)
  {
    hide Sound, Inv, Committed, Saw, SawNone, ReadAs, SeenIntact, ReservationValid, Fits, Encode;
    seen := None;
    if host.quiet && MarkerName(job.file) in host.Live() {
      Current(job, host);
      MarkerInPlace(job, Now(host));
    }
    ghost var from := |host.past| - 1;
    var there := Exists(host, job, MarkerName(job.file));
    if !there { return Proceed, seen; }
    ghost var past := host.past;
    var read := ReadMarker(host, job);
    if read.None? { return Refused, seen; }
    seen := read;
    SawLater(host.past, host.past, |past| - 1, from, MarkerName(job.file), read.value.1.inode, Encode(read.value.0));
    past := host.past;
    var m, markerId := read.value.0, read.value.1;
    if !Accepted(job, m) { return Refused, seen; }
    NamesApart(job.file, m.reservation, "");
    r := Resolve(host, job, m, markerId);
    if r.Recovered? { IntactLater(job, host.past, |past| - 1, from, m); }
    SawLater(past, host.past, from, from, MarkerName(job.file), markerId.inode, Encode(m));
  }
}
