/** What one output path's directory may look like, whatever was interrupted. */
module KeyOutputState {
  import opened Wrappers
  import opened KeyDirectory

  /** One retry command: its output file and the key it asks for. */
  datatype Job = Job(file: string, path: string, organization: string, identity: string, keyId: string,
                     operation: Option<string>, expiresAt: Option<string>)

  function MarkerName(file: string): string { "." + file + ".exp-key-delivery.json" }

  function ReservationPrefix(file: string): string { "." + file + "." }

  const RESERVE := ".reserve"

  function ReservationName(file: string, token: string): string { ReservationPrefix(file) + token + RESERVE }

  function StagingName(name: string, token: string): string { "." + name + "." + token + ".tmp" }

  predicate Hex32(token: string) {
    |token| == 32 && forall k | 0 <= k < 32 :: '0' <= token[k] <= '9' || 'a' <= token[k] <= 'f'
  }

  /** A recorded reservation is accepted only as a sibling of this output with a 32-digit token. */
  predicate ReservationValid(file: string, name: string) {
    var from, until := |ReservationPrefix(file)|, |name| - |RESERVE|;
    && until - from == 32
    && name[..from] == ReservationPrefix(file)
    && name[until..] == RESERVE
    && Hex32(name[from..until])
  }

  lemma ReservationNameValid(file: string, token: string)
    requires Hex32(token)
    ensures ReservationValid(file, ReservationName(file, token))
  {
    var name, from := ReservationName(file, token), |ReservationPrefix(file)|;
    assert name[..from] == ReservationPrefix(file);
    assert name[from..from + 32] == token;
    assert name[from + 32..] == RESERVE;
  }

  /** Recovery accepts exactly the hidden siblings of the output that carry 32 lower-case hexadecimal digits and the reservation's ending. */
  lemma ReservationValidExactly(file: string, name: string)
    ensures ReservationValid(file, name)
            <==> exists token: string :: && |token| == 32 && (forall k :: 0 <= k < 32 ==> token[k] in "0123456789abcdef")
                                         && name == "." + file + "." + token + ".reserve"
  {
    var from, until := |ReservationPrefix(file)|, |name| - |RESERVE|;
    if ReservationValid(file, name) {
      var token := name[from..until];
      assert name == name[..from] + token + name[until..];
      assert forall k :: 0 <= k < 32 ==> HexDigit(token[k]);
    }
    if token: string :| && |token| == 32 && (forall k :: 0 <= k < 32 ==> token[k] in "0123456789abcdef")
                        && name == "." + file + "." + token + ".reserve" {
      assert forall k :: 0 <= k < 32 ==> HexDigit(token[k]);
      assert name == ReservationName(file, token);
      ReservationNameValid(file, token);
    }
  }

  predicate HexDigit(c: char)
    ensures HexDigit(c) <==> c in "0123456789abcdef"
  {
    c in {'0', '1', '2', '3', '4', '5', '6', '7', '8', '9', 'a', 'b', 'c', 'd', 'e', 'f'}
  }

  /** Every name beside the output is hidden and begins with the name it belongs to. */
  lemma NamesAreHidden(file: string, token: string)
    ensures var marker := MarkerName(file);
            "." + file + "." <= marker && "." + file + "." <= ReservationName(file, token) && "." + marker + "." <= StagingName(marker, token)
  {
  }

  /** The four names one delivery uses never coincide. */
  lemma NamesApart(file: string, reservation: string, token: string)
    requires ReservationValid(file, reservation)
    ensures file != MarkerName(file) && file != reservation && MarkerName(file) != reservation
    ensures StagingName(MarkerName(file), token) !in {file, MarkerName(file), reservation}
  {
    var marker, staging := MarkerName(file), StagingName(MarkerName(file), token);
    assert reservation[|reservation| - 1] == RESERVE[|RESERVE| - 1];
    assert marker[|marker| - 1] == 'n' && staging[|staging| - 1] == 'p' && RESERVE[|RESERVE| - 1] == 'e';
    assert |file| < |marker| < |staging| && |file| < |reservation|;
  }

  lemma StagingApart(file: string, token: string)
    ensures StagingName(MarkerName(file), token) !in {file, MarkerName(file)}
  {
    assert |StagingName(MarkerName(file), token)| > |MarkerName(file)| > |file|;
  }

  /** The operation check a retry makes before it trusts a marker. */
  predicate Fits(job: Job, m: Marker) {
    && m.evidence.organization == job.organization
    && m.evidence.identity == job.identity
    && m.evidence.keyId == job.keyId
    && m.evidence.operation == job.operation
    && m.evidence.request == Request(job.organization, job.identity, job.keyId, job.expiresAt)
    && m.targetPath == job.path
  }

  /** A marker that owns exactly the output of its key. */
  ghost predicate Authored(job: Job, m: Marker) {
    && Fits(job, m)
    && m.output == Sha256(Secret(m))
    && m.outputLength == KEY_OUTPUT_LENGTH == |Secret(m)| && KeyText(m.evidence.fingerprint.rawKey)
    && ReservationValid(job.file, m.reservation)
  }

  function Secret(m: Marker): seq<Cell> { Payload(m.evidence.fingerprint.rawKey) }

  function MarkerAt(job: Job, files: map<Inode, File>, d: Directory): Option<Marker> {
    if MarkerName(job.file) in d && d[MarkerName(job.file)] in files
    then Decode(files[d[MarkerName(job.file)]].data) else None
  }

  /** A present marker is complete and durable, names the output inode, and while the reservation is
      still linked that inode is empty. */
  ghost predicate Claim(job: Job, files: map<Inode, File>, issued: Option<Evidence>, d: Directory)
    requires MarkerName(job.file) in d && d[MarkerName(job.file)] in files
  {
    && MarkerAt(job, files, d).Some?
    && var m := MarkerAt(job, files, d).value;
    && files[d[MarkerName(job.file)]].Holds(Encode(m))
    && Authored(job, m)
    && m.target in files && files[m.target].Plain()
    && (forall v :: v in files[m.target].Versions() ==> v <= Secret(m))
    && (m.reservation in d ==> d[m.reservation] == m.target && files[m.target].Empty())
    && (job.file in d ==> d[job.file] == m.target)
    && (issued.Some? ==> issued.value == m.evidence && m.reservation !in d)
  }

  /** One directory state a crash may leave. */
  ghost predicate DirOk(job: Job, files: map<Inode, File>, issued: Option<Evidence>, d: Directory) {
    && (forall n :: n in d ==> d[n] in files)
    && (forall n :: n in d && n != job.file ==> files[d[n]].Clean())
    && (MarkerName(job.file) in d ==> Claim(job, files, issued, d))
    && (issued.Some? ==> job.file in d && files[d[job.file]].Holds(Payload(issued.value.fingerprint.rawKey))
                         && KeyText(issued.value.fingerprint.rawKey))
    && (job.file in d && MarkerName(job.file) !in d ==> issued.Some?)
  }

  ghost predicate Inv(job: Job, w: World) {
    w.disk.Ok() && forall k :: 0 <= k < |w.disk.dirs| ==> DirOk(job, w.disk.files, w.issued, w.disk.dirs[k])
  }

  /** Every state the machine has been in satisfies the invariant, and a committed key row never changes. */
  ghost predicate Sound(job: Job, host: Host)
    reads host
  {
    && host.Valid()
    && (forall k :: 0 <= k < |host.past| ==> Inv(job, host.past[k]))
    && (forall i, j :: 0 <= i <= j < |host.past| && host.past[i].issued.Some? ==> host.past[j].issued == host.past[i].issued)
  }

  /** The promise of the protocol: in whatever state a crash leaves, a name that leads to any byte of a
      key is the output path, and either the key is committed and the output is exactly that key, or a
      complete marker names that inode and the digest of that key and the reservation is gone. */
  ghost predicate Guarded(job: Job, issued: Option<Evidence>, after: Disk)
    requires after.Ok()
  {
    var d := after.Live();
    forall n :: n in d && (exists k :: 0 <= k < |after.files[d[n]].data| && after.files[d[n]].data[k].Char?) ==>
      && n == job.file
      && match issued
         case Some(key) => after.files[d[n]].data == Payload(key.fingerprint.rawKey)
         case None =>
           var m := MarkerAt(job, after.files, d);
           && m.Some? && Authored(job, m.value) && m.value.target == d[n]
           && after.files[d[n]].data <= Secret(m.value) && m.value.reservation !in d
  }

  /** Crash ordering: the invariant guards the secret in every state a crash may leave. */
  lemma CrashLeavesSecretGuarded(job: Job, w: World, after: Disk)
    requires Inv(job, w) && CrashView(w.disk, after)
    ensures after.Ok() && Guarded(job, w.issued, after)
  {
    CrashKeepsInv(job, w, after);
    var d := after.Live();
    assert DirOk(job, after.files, w.issued, d);
    forall n, k | n in d && 0 <= k < |after.files[d[n]].data| && after.files[d[n]].data[k].Char?
      ensures n == job.file
    {
      var f := after.files[d[n]];
      assert f.data in f.Versions();
    }
    if job.file in d && w.issued.None? {
      assert Claim(job, after.files, w.issued, d);
      var f := after.files[d[job.file]];
      assert f.data in f.Versions();
    }
  }

  /** What a crash can leave of one file. */
  predicate Survives(was: File, now: File) {
    now.regular == was.regular && now.private == was.private && now.data in was.Versions() && now.stale == {}
  }

  lemma SurvivedFile(was: File, now: File)
    requires Survives(was, now)
    ensures was.Plain() ==> now.Plain()
    ensures now.Versions() <= was.Versions()
    ensures forall bytes :: was.Holds(bytes) ==> now.Holds(bytes)
    ensures was.Clean() ==> now.Clean()
    ensures was.Empty() ==> now.Empty()
  {
  }

  lemma SurvivedClaim(job: Job, was: map<Inode, File>, now: map<Inode, File>, issued: Option<Evidence>, d: Directory)
    requires now.Keys == was.Keys && forall i :: i in was ==> Survives(was[i], now[i])
    requires MarkerName(job.file) in d && d[MarkerName(job.file)] in was && Claim(job, was, issued, d)
    ensures Claim(job, now, issued, d)
  {
    hide Survives, Authored;
    var t := d[MarkerName(job.file)];
    SurvivedFile(was[t], now[t]);
    var m := MarkerAt(job, was, d).value;
    SurvivedFile(was[m.target], now[m.target]);
  }

  lemma CrashKeepsInv(job: Job, w: World, after: Disk)
    requires Inv(job, w) && CrashView(w.disk, after)
    ensures Inv(job, World(after, w.issued))
  {
    hide Claim;
    var k :| 0 <= k < |w.disk.dirs| && after.dirs == [w.disk.dirs[k]];
    var d := w.disk.dirs[k];
    assert DirOk(job, w.disk.files, w.issued, d);
    assert forall i :: i in w.disk.files ==> Survives(w.disk.files[i], after.files[i]);
    hide Survives;
    forall n | n in d ensures d[n] in after.files && (n != job.file ==> after.files[d[n]].Clean()) {
      SurvivedFile(w.disk.files[d[n]], after.files[d[n]]);
    }
    if MarkerName(job.file) in d { SurvivedClaim(job, w.disk.files, after.files, w.issued, d); }
    if job.file in d { SurvivedFile(w.disk.files[d[job.file]], after.files[d[job.file]]); }
  }

  /** A new file no directory state mentions. */
  lemma FileAdded(job: Job, files: map<Inode, File>, issued: Option<Evidence>, d: Directory, i: Inode, f: File)
    requires DirOk(job, files, issued, d) && i !in files
    ensures DirOk(job, files[i := f], issued, d)
  {
  }

  /** Neither the output, nor the marker, nor the file the marker names. */
  ghost predicate Unwatched(job: Job, files: map<Inode, File>, d: Directory, i: Inode) {
    && (job.file in d ==> d[job.file] != i)
    && (MarkerName(job.file) in d ==> d[MarkerName(job.file)] != i
                                      && (MarkerAt(job, files, d).Some? ==> MarkerAt(job, files, d).value.target != i))
  }

  lemma FileTouched(job: Job, files: map<Inode, File>, issued: Option<Evidence>, d: Directory, i: Inode, f: File)
    requires DirOk(job, files, issued, d) && i in files
    requires Unwatched(job, files, d, i) && f.Clean()
    ensures DirOk(job, files[i := f], issued, d) && Unwatched(job, files[i := f], d, i)
  {
  }

  lemma NameEntered(job: Job, files: map<Inode, File>, issued: Option<Evidence>, d: Directory, n: string, i: Inode)
    requires DirOk(job, files, issued, d) && i in files && files[i].Clean()
    requires n != job.file && n != MarkerName(job.file)
    requires MarkerAt(job, files, d).Some? ==> MarkerAt(job, files, d).value.reservation != n
    ensures DirOk(job, files, issued, d[n := i])
  {
  }

  /** The marker leaves last: it may go only when the output is gone or committed. */
  lemma NameLeft(job: Job, files: map<Inode, File>, issued: Option<Evidence>, d: Directory, n: string)
    requires DirOk(job, files, issued, d)
    requires n == job.file ==> issued.None?
    requires n == MarkerName(job.file) ==> job.file !in d || issued.Some?
    ensures DirOk(job, files, issued, d - {n})
  {
  }

  /** The same steps on the whole machine. */
  lemma InvEntered(job: Job, w: World, n: string, i: Inode)
    requires Inv(job, w) && i in w.disk.files && DirOk(job, w.disk.files, w.issued, w.disk.Live()[n := i])
    ensures Inv(job, w.(disk := w.disk.Entered(n, i)))
  {
  }

  lemma InvUnlinked(job: Job, w: World, n: string)
    requires Inv(job, w)
    requires n == job.file ==> w.issued.None?
    requires n == MarkerName(job.file) ==> job.file !in w.disk.Live() || w.issued.Some?
    ensures Inv(job, w.(disk := w.disk.Unlinked(n)))
  {
    NameLeft(job, w.disk.files, w.issued, w.disk.Live(), n);
  }

  lemma InvSynced(job: Job, w: World)
    requires Inv(job, w)
    ensures Inv(job, w.(disk := w.disk.Synced()))
  {
  }

  lemma InvCreated(job: Job, w: World, n: string, i: Inode)
    requires Inv(job, w) && i !in w.disk.files
    requires n != job.file && n != MarkerName(job.file)
    requires MarkerAt(job, w.disk.files, w.disk.Live()).Some? ==> MarkerAt(job, w.disk.files, w.disk.Live()).value.reservation != n
    ensures Inv(job, w.(disk := w.disk.Created(n, i)))
    ensures forall k :: 0 <= k < |w.disk.dirs| + 1 ==> Unwatched(job, w.disk.Created(n, i).files, w.disk.Created(n, i).dirs[k], i)
  {
    var f := File(true, true, [], {});
    forall k | 0 <= k < |w.disk.dirs|
      ensures DirOk(job, w.disk.files[i := f], w.issued, w.disk.dirs[k])
    {
      FileAdded(job, w.disk.files, w.issued, w.disk.dirs[k], i, f);
    }
    NameEntered(job, w.disk.files[i := f], w.issued, w.disk.Live(), n, i);
  }

  ghost predicate UnwatchedAll(job: Job, disk: Disk, i: Inode) {
    forall k :: 0 <= k < |disk.dirs| ==> Unwatched(job, disk.files, disk.dirs[k], i)
  }

  lemma InvTouched(job: Job, w: World, i: Inode, f: File)
    requires Inv(job, w) && i in w.disk.files && UnwatchedAll(job, w.disk, i) && f.Clean()
    ensures Inv(job, w.(disk := w.disk.(files := w.disk.files[i := f])))
    ensures UnwatchedAll(job, w.disk.(files := w.disk.files[i := f]), i)
  {
    forall k | 0 <= k < |w.disk.dirs|
      ensures DirOk(job, w.disk.files[i := f], w.issued, w.disk.dirs[k])
      ensures Unwatched(job, w.disk.files[i := f], w.disk.dirs[k], i)
    {
      FileTouched(job, w.disk.files, w.issued, w.disk.dirs[k], i, f);
    }
  }

  /** The marker is durable, alone, and owns the still empty inode behind the reservation. */
  ghost predicate Reserved(job: Job, w: World, m: Marker) {
    && |w.disk.dirs| == 1 && w.issued.None?
    && MarkerAt(job, w.disk.files, w.disk.Live()) == Some(m)
    && m.target in w.disk.files && w.disk.files[m.target].Holds([])
    && m.reservation in w.disk.Live() && w.disk.Live()[m.reservation] == m.target && job.file !in w.disk.Live()
    && (forall n :: n in w.disk.Live() && w.disk.Live()[n] == m.target ==> n == m.reservation)
  }

  /** The output name alone leads to the inode, which holds the first `written` bytes. */
  ghost predicate Filling(job: Job, w: World, m: Marker, written: nat) {
    && |w.disk.dirs| == 1 && w.issued.None?
    && MarkerAt(job, w.disk.files, w.disk.Live()) == Some(m)
    && m.target in w.disk.files && w.disk.files[m.target].Plain()
    && written <= |Secret(m)| && w.disk.files[m.target].data == Secret(m)[..written]
    && m.reservation !in w.disk.Live()
    && job.file in w.disk.Live() && w.disk.Live()[job.file] == m.target
    && (forall n :: n in w.disk.Live() && w.disk.Live()[n] == m.target ==> n == job.file)
  }

  /** Exact output, its marker, and no reservation, all durable. */
  ghost predicate Published(job: Job, w: World, m: Marker) {
    Filling(job, w, m, |Secret(m)|) && w.disk.files[m.target].Holds(Secret(m))
  }

  /** Writing the next secret bytes into the claimed inode, when only the output name leads to it. */
  lemma SecretWritten(job: Job, files: map<Inode, File>, d: Directory, m: Marker, g: File)
    requires DirOk(job, files, None, d) && MarkerAt(job, files, d) == Some(m)
    requires m.target in files && m.reservation !in d
    requires forall n :: n in d && d[n] == m.target ==> n == job.file
    requires g.Plain() && forall v :: v in g.Versions() ==> v <= Secret(m)
    ensures DirOk(job, files[m.target := g], None, d) && MarkerAt(job, files[m.target := g], d) == Some(m)
  {
    NamesApart(job.file, m.reservation, "");
    var after := files[m.target := g];
    assert d[MarkerName(job.file)] != m.target;
    assert MarkerAt(job, after, d) == Some(m);
  }

  lemma InvFilled(job: Job, w: World, m: Marker, written: nat, count: nat)
    requires Inv(job, w) && Filling(job, w, m, written) && written + count <= |Secret(m)|
    ensures var next := w.(disk := w.disk.Wrote(m.target, Secret(m)[written..written + count]));
            Inv(job, next) && Filling(job, next, m, written + count)
  {
    var f := w.disk.files[m.target];
    assert forall v :: v in f.Versions() ==> v <= Secret(m) by {
      assert DirOk(job, w.disk.files, w.issued, w.disk.dirs[0]);
    }
    GrownVersions(f, Secret(m), written, count);
    var g := f.(data := f.data + Secret(m)[written..written + count], stale := f.Versions());
    assert w.disk.Wrote(m.target, Secret(m)[written..written + count]) == w.disk.(files := w.disk.files[m.target := g]);
    FilledWith(job, w, m, written, g, written + count);
  }

  lemma FilledWith(job: Job, w: World, m: Marker, written: nat, g: File, now: nat)
    requires Inv(job, w) && Filling(job, w, m, written) && now <= |Secret(m)|
    requires g.Plain() && g.data == Secret(m)[..now] && forall v :: v in g.Versions() ==> v <= Secret(m)
    ensures var next := w.(disk := w.disk.(files := w.disk.files[m.target := g]));
            Inv(job, next) && Filling(job, next, m, now)
  {
    var d := w.disk.Live();
    assert w.disk.dirs == [d];
    assert DirOk(job, w.disk.files, None, d) by {
      assert DirOk(job, w.disk.files, w.issued, w.disk.dirs[0]);
    }
    SecretWritten(job, w.disk.files, d, m, g);
    assert MarkerAt(job, w.disk.files[m.target := g], d) == Some(m);
  }

  lemma GrownVersions(f: File, whole: seq<Cell>, written: nat, count: nat)
    requires written + count <= |whole| && f.data == whole[..written]
    requires forall v :: v in f.Versions() ==> v <= whole
    ensures var g := f.(data := f.data + whole[written..written + count], stale := f.Versions());
            g.data == whole[..written + count] && forall v :: v in g.Versions() ==> v <= whole
  {
    assert f.data + whole[written..written + count] == whole[..written + count];
  }

  /** A published output survives the file sync as exactly the key. */
  lemma InvFilledSynced(job: Job, w: World, m: Marker)
    requires Inv(job, w) && Filling(job, w, m, |Secret(m)|)
    ensures var next := w.(disk := w.disk.FileSynced(m.target)); Inv(job, next) && Published(job, next, m)
  {
    var d := w.disk.Live();
    assert DirOk(job, w.disk.files, w.issued, w.disk.dirs[0]);
    var g := w.disk.files[m.target].(stale := {});
    assert g.data in w.disk.files[m.target].Versions();
    assert g.data == Secret(m);
    SecretWritten(job, w.disk.files, d, m, g);
    NamesApart(job.file, m.reservation, "");
  }

  /** The still empty inode a marker is about to claim, reached by its reservation alone. */
  ghost predicate Holding(job: Job, w: World, m: Marker) {
    && w.disk.Ok() && w.issued.None?
    && m.target in w.disk.files && w.disk.files[m.target].Holds([])
    && m.reservation in w.disk.Live() && w.disk.Live()[m.reservation] == m.target
    && (forall k, n :: 0 <= k < |w.disk.dirs| && n in w.disk.dirs[k] && w.disk.dirs[k][n] == m.target ==> n == m.reservation)
  }

  /** The marker's private copy `t`, complete up to `written`. */
  ghost predicate Staging(job: Job, w: World, m: Marker, t: Inode, written: nat) {
    && Holding(job, w, m) && UnwatchedAll(job, w.disk, t)
    && t != m.target && t in w.disk.files && w.disk.files[t].Plain() && w.disk.files[t].Clean()
    && written <= MARKER_LENGTH && w.disk.files[t].data == Encode(m)[..written]
    && StagingIn(job, w.disk.Live(), t)
  }

  /** Some staging name of this marker leads to `t`. */
  ghost predicate StagingIn(job: Job, d: Directory, t: Inode) {
    exists token :: StagingName(MarkerName(job.file), token) in d && d[StagingName(MarkerName(job.file), token)] == t
  }

  lemma StagingCreated(job: Job, w: World, m: Marker, token: string, t: Inode)
    requires Inv(job, w) && Holding(job, w, m) && Authored(job, m) && t !in w.disk.files
    requires StagingName(MarkerName(job.file), token) !in w.disk.Live()
    ensures var next := w.(disk := w.disk.Created(StagingName(MarkerName(job.file), token), t));
            Inv(job, next) && Staging(job, next, m, t, 0)
  {
    var name := StagingName(MarkerName(job.file), token);
    NamesApart(job.file, m.reservation, token);
    var prior := MarkerAt(job, w.disk.files, w.disk.Live());
    if prior.Some? {
      assert DirOk(job, w.disk.files, w.issued, w.disk.dirs[|w.disk.dirs| - 1]);
      NamesApart(job.file, prior.value.reservation, token);
    }
    InvCreated(job, w, name, t);
    var next := w.disk.Created(name, t);
    assert next.Live()[name] == t;
    assert next.files[t].data == Encode(m)[..0];
  }

  lemma StagingWritten(job: Job, w: World, m: Marker, t: Inode, written: nat, count: nat)
    requires Inv(job, w) && Staging(job, w, m, t, written) && written + count <= MARKER_LENGTH
    ensures var next := w.(disk := w.disk.Wrote(t, Encode(m)[written..written + count]));
            Inv(job, next) && Staging(job, next, m, t, written + count)
  {
    DecodeEncode(m);
    var f := w.disk.files[t];
    var g := f.(data := f.data + Encode(m)[written..written + count], stale := f.Versions());
    assert g.data == Encode(m)[..written + count];
    InvTouched(job, w, t, g);
  }

  lemma StagingSynced(job: Job, w: World, m: Marker, t: Inode)
    requires Inv(job, w) && Staging(job, w, m, t, MARKER_LENGTH)
    ensures var next := w.(disk := w.disk.FileSynced(t));
            Inv(job, next) && Staging(job, next, m, t, MARKER_LENGTH) && next.disk.files[t].Holds(Encode(m))
  {
    assert Encode(m)[..MARKER_LENGTH] == Encode(m);
    InvTouched(job, w, t, w.disk.files[t].(stale := {}));
  }

  /** Linking the complete copy under the marker's own name makes the claim. */
  lemma MarkerLinked(job: Job, w: World, m: Marker, t: Inode)
    requires Inv(job, w) && Holding(job, w, m) && Authored(job, m)
    requires t != m.target && t in w.disk.files && w.disk.files[t].Holds(Encode(m)) && w.disk.files[t].Clean()
    requires MarkerName(job.file) !in w.disk.Live()
    ensures var next := w.(disk := w.disk.Entered(MarkerName(job.file), t));
            Inv(job, next) && Holding(job, next, m) && MarkerAt(job, next.disk.files, next.disk.Live()) == Some(m)
    ensures job.file !in w.disk.Live()
  {
    DecodeEncode(m);
    NamesApart(job.file, m.reservation, "");
    var d := w.disk.Live();
    assert DirOk(job, w.disk.files, w.issued, w.disk.dirs[|w.disk.dirs| - 1]);
    var e := d[MarkerName(job.file) := t];
    assert MarkerAt(job, w.disk.files, e) == Some(m);
    assert DirOk(job, w.disk.files, w.issued, e);
    InvEntered(job, w, MarkerName(job.file), t);
  }
}
