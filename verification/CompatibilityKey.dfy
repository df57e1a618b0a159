/** The repeated driver of the key protocol: one key file, created or recovered. */
module CompatibilityKey {
  import opened Wrappers
  import opened KeyDirectory
  import opened KeyOutputState
  import opened KeySteps
  import opened KeyOutput

  /** A new key, its evidence, and the two tokens of one publication attempt. */
  datatype Attempt = Attempt(rawKey: string, evidence: Evidence, token: string, stagingToken: string)

  /** What key generation and token generation give an attempt. */
  predicate Usable(job: Job, a: Attempt) {
    Hex32(a.token) && |a.rawKey| + 1 == KEY_OUTPUT_LENGTH && Requested(job, a.evidence, a.rawKey)
  }

  /** Neither token names anything in the directory. */
  predicate FreshNames(job: Job, d: Directory, a: Attempt) {
    ReservationName(job.file, a.token) !in d && Staged(job, a.stagingToken) !in d
  }

  /** A key that was not issued has its delivery undone, or what is left of it is kept as evidence. */
  datatype Issue = Issued | NotIssued(undone: bool) | IssueUnknown

  lemma PublishedCommits(job: Job, w: World, m: Marker)
    requires Inv(job, w) && Published(job, w, m)
    ensures Inv(job, w.(issued := Some(m.evidence))) && Committed(job, w.(issued := Some(m.evidence)))
    ensures Authored(job, m) && MarkerName(job.file) in w.disk.Live()
  {
    assert DirOk(job, w.disk.files, w.issued, w.disk.dirs[0]);
  }

  /** A run knows an inode because it made it, read exactly its own key from it, or read a complete marker that lies in it or records it. */
  ghost predicate Known(job: Job, a: Attempt, past: seq<World>, from: nat, inode: Inode) {
    || Saw(past, from, ReservationName(job.file, a.token), inode, [])
    || Saw(past, from, Staged(job, a.stagingToken), inode, [])
    || Saw(past, from, job.file, inode, Payload(a.rawKey))
    || exists m: Marker, lies: Inode :: Saw(past, from, MarkerName(job.file), lies, Encode(m)) && (inode == lies || inode == m.target)
  }

  /** Everything removed since the first `n` removals was a marker copy of this run, or an inode it knew. */
  ghost predicate Accounted(job: Job, a: Attempt, removed: seq<Removal>, n: nat, past: seq<World>, from: nat) {
    forall k :: n <= k < |removed| ==> removed[k].name == Staged(job, a.stagingToken) || Known(job, a, past, from, removed[k].inode)
  }

  lemma KnownLater(job: Job, a: Attempt, past: seq<World>, more: seq<World>, from: nat, earlier: nat, inode: Inode)
    requires past <= more && earlier <= from && Known(job, a, past, from, inode)
    ensures Known(job, a, more, earlier, inode)
  {
    hide Saw;
    if Saw(past, from, ReservationName(job.file, a.token), inode, []) {
      SawLater(past, more, from, earlier, ReservationName(job.file, a.token), inode, []);
    } else if Saw(past, from, Staged(job, a.stagingToken), inode, []) {
      SawLater(past, more, from, earlier, Staged(job, a.stagingToken), inode, []);
    } else if Saw(past, from, job.file, inode, Payload(a.rawKey)) {
      SawLater(past, more, from, earlier, job.file, inode, Payload(a.rawKey));
    } else {
      var m: Marker, lies: Inode :| Saw(past, from, MarkerName(job.file), lies, Encode(m)) && (inode == lies || inode == m.target);
      SawLater(past, more, from, earlier, MarkerName(job.file), lies, Encode(m));
    }
  }

  /** What was accounted for stays so, and further removals of known inodes are accounted for. */
  lemma AccountedThen(job: Job, a: Attempt, removed: seq<Removal>, more: seq<Removal>, n: nat, ids: set<Inode>,
                      past: seq<World>, later: seq<World>, from: nat, middle: nat)
    requires removed <= more && past <= later && from <= middle && Accounted(job, a, removed, n, past, from)
    requires forall k :: |removed| <= k < |more| ==> more[k].name == Staged(job, a.stagingToken) || more[k].inode in ids
    requires forall i :: i in ids ==> Known(job, a, later, middle, i)
    ensures Accounted(job, a, more, n, later, from)
  {
    hide Known;
    forall k | n <= k < |more| ensures more[k].name == Staged(job, a.stagingToken) || Known(job, a, later, from, more[k].inode) {
      if k < |removed| {
        assert more[k] == removed[k];
        if Known(job, a, past, from, removed[k].inode) { KnownLater(job, a, past, later, from, from, removed[k].inode); }
      } else if more[k].inode in ids {
        KnownLater(job, a, later, later, middle, from, more[k].inode);
      }
    }
  }

  lemma MarkerKnown(job: Job, a: Attempt, past: seq<World>, from: nat, m: Marker, lies: Inode)
    requires Saw(past, from, MarkerName(job.file), lies, Encode(m))
    ensures Known(job, a, past, from, lies) && Known(job, a, past, from, m.target)
  {
    hide Saw, Encode;
  }

  /** The output holds this key behind its marker, whether or not it is committed. */
  ghost predicate InPlace(job: Job, w: World, evidence: Evidence)
    requires |w.disk.dirs| > 0
  {
    MarkerName(job.file) in w.disk.Live() && Committed(job, w.(issued := Some(evidence)))
  }

  /** After delivery: the receipt and the commit, or a rollback that takes the delivery with it. */
  method CommitOrUndo(host: Host, job: Job, a: Attempt, m: Marker) returns (r: Issue)
    requires Steady(job, host) && m.output == Sha256(Payload(a.rawKey))
    requires host.quiet ==> host.issued.None? && Published(job, Now(host), m) && m.evidence == a.evidence
    modifies host
    ensures Steady(job, host) && Onward(host)
    ensures Accounted(job, a, host.removed, |old(host.removed)|, host.past, |old(host.past)| - 1)
    ensures host.quiet ==> host.issued.None? || host.issued == Some(a.evidence)
    ensures host.quiet && r.Issued? ==> Committed(job, Now(host)) && MarkerName(job.file) in host.Live() && host.issued == Some(a.evidence)
    ensures host.quiet && r.NotIssued? ==> host.issued.None?
    ensures host.quiet && r == NotIssued(true) ==> Erased(job, Now(host))
    ensures host.quiet && r.IssueUnknown? ==> InPlace(job, Now(host), a.evidence)
    ensures host.quiet && host.refusals <= old(host.refusals) + 1 ==> r.Issued? || r == NotIssued(true)
    ensures host.quiet && Unrefused(host) ==> r.Issued?
  {
    hide Sound, Inv, Published, Committed, Authored, Known, Encode, Saw;
    if host.quiet {
      Current(job, host);
      PublishedCommits(job, Now(host), m);
    }
    var receiptFails := Statement(host, job);
    if receiptFails {
      var rollbackFails := Statement(host, job);
      if rollbackFails {
        NothingRemoved(job, a, host.removed, host.past, |host.past| - 1);
        return IssueUnknown;
      }
      var undone := Undo(host, job, a, m);
      return NotIssued(undone);
    }
    ghost var (n, from) := (|host.removed|, |host.past| - 1);
    var reported := Commit(host, job, a.evidence);
    if reported {
      return Issued;
    }
    var outcome := Reconcile(host, job, a.evidence);
    if outcome == Some(true) {
      return Issued;
    }
    if outcome == Some(false) {
      ghost var past := host.past;
      var undone := Undo(host, job, a, m);
      UndoneLater(job, a, host.removed, n, host.past, from, |past| - 1);
      return NotIssued(undone);
    }
    return IssueUnknown;
  }

  lemma UndoneLater(job: Job, a: Attempt, removed: seq<Removal>, n: nat, past: seq<World>, from: nat, middle: nat)
    requires from <= middle && Accounted(job, a, removed, n, past, middle)
    ensures Accounted(job, a, removed, n, past, from)
  {
    hide Known;
    forall k | n <= k < |removed| && Known(job, a, past, middle, removed[k].inode) ensures Known(job, a, past, from, removed[k].inode) {
      KnownLater(job, a, past, past, middle, from, removed[k].inode);
    }
  }

  /** The delivery's rollback hook: output and marker durably gone unless a call was refused. */
  method Undo(host: Host, job: Job, a: Attempt, m: Marker) returns (undone: bool)
    requires Steady(job, host) && m.output == Sha256(Payload(a.rawKey))
    requires host.quiet ==> host.issued.None? && Published(job, Now(host), m) && Authored(job, m)
    modifies host
    ensures Steady(job, host) && Onward(host) && (host.quiet ==> host.issued.None?)
    ensures Accounted(job, a, host.removed, |old(host.removed)|, host.past, |old(host.past)| - 1)
    ensures host.quiet && undone ==> Erased(job, Now(host))
    ensures host.quiet && Unrefused(host) ==> undone
  {
    hide Sound, Inv, Published, Authored, Known, Encode, Saw;
    ghost var (removed, past) := (host.removed, host.past);
    ghost var output, seen;
    undone, output, seen := RollBack(host, job, m);
    if output.Some? { OutputKnown(job, a, host.past, |past| - 1, output.value.inode); }
    if seen.Some? { MarkerKnown(job, a, host.past, |past| - 1, seen.value.0, seen.value.1.inode); }
    AccountedThen(job, a, removed, host.removed, |removed|, Inodes(output, seen), past, host.past, |past| - 1, |past| - 1);
  }

  lemma OutputKnown(job: Job, a: Attempt, past: seq<World>, from: nat, inode: Inode)
    requires Saw(past, from, job.file, inode, Payload(a.rawKey))
    ensures Known(job, a, past, from, inode)
  {
  }

  lemma MadeKnown(job: Job, a: Attempt, past: seq<World>, from: nat, p: Progress)
    requires Made(job, past, from, a.token, a.stagingToken, p)
    ensures p.reservation.Some? ==> Known(job, a, past, from, p.reservation.value.inode)
    ensures p.markerId.Some? ==> Known(job, a, past, from, p.markerId.value.inode)
  {
    hide Saw;
  }

  /** One transaction: the key row, the delivery inside it, its receipt, and the commit. Only what was delivered can be issued or unknown. */
  method IssueKey(host: Host, job: Job, a: Attempt) returns (r: Issue, ghost delivered: bool)
    requires Steady(job, host) && Usable(job, a)
    requires host.quiet ==> NewToken(job, Now(host), a.token)
    modifies host
    ensures Steady(job, host) && Onward(host)
    ensures Accounted(job, a, host.removed, |old(host.removed)|, host.past, |old(host.past)| - 1)
    ensures host.quiet && old(host.issued).Some? ==> r == NotIssued(true) && Now(host) == old(Now(host))
    ensures host.quiet && old(host.issued).None? ==> host.issued.None? || host.issued == Some(a.evidence)
    ensures host.quiet && r.Issued? ==> Committed(job, Now(host)) && MarkerName(job.file) in host.Live() && host.issued == Some(a.evidence)
    ensures host.quiet && r.NotIssued? && old(host.issued).None? ==> host.issued.None?
    ensures host.quiet && r == NotIssued(true) && job.file !in old(host.Live()) ==> job.file !in host.Live()
    ensures !delivered ==> r.NotIssued?
    ensures host.quiet && r.IssueUnknown? ==> InPlace(job, Now(host), a.evidence)
    ensures host.quiet && delivered && r == NotIssued(true) ==> Erased(job, Now(host))
    ensures host.quiet && delivered && host.refusals <= old(host.refusals) + 1 ==> r.Issued? || r == NotIssued(true)
    ensures (
      && host.quiet && host.refusals <= old(host.refusals) + 1 && old(host.issued).None?
      && MarkerName(job.file) !in old(host.Live()) && FreshNames(job, old(host.Live()), a)
    ) ==> r.Issued? || (r.NotIssued? && job.file !in host.Live())
    ensures (
      && host.quiet && Unrefused(host) && old(host.issued).None? && MarkerName(job.file) !in old(host.Live())
      && FreshNames(job, old(host.Live()), a)
    ) ==> r.Issued?
  {
    hide Sound, Inv, Published, Committed, Authored, Known, Encode, Saw, Made;
    if host.issued.Some? {
      NothingRemoved(job, a, host.removed, host.past, |host.past| - 1);
      return NotIssued(true), false;
    }
    if host.quiet && MarkerName(job.file) !in host.Live() {
      Current(job, host);
      OutputWithoutMarker(job, Now(host));
    }
    ghost var (removed, past) := (host.removed, host.past);
    var delivery, p := Deliver(host, job, a.rawKey, a.evidence, a.token, a.stagingToken);
    MadeKnown(job, a, host.past, |past| - 1, p);
    ghost var ids := (if p.reservation.Some? then {p.reservation.value.inode} else {}) + if p.markerId.Some? then {p.markerId.value.inode} else {};
    AccountedThen(job, a, removed, host.removed, |removed|, ids, past, host.past, |past| - 1, |past| - 1);
    if !delivery.Delivered? {
      return NotIssued(delivery.Undid?), false;
    }
    ghost var (removedThen, pastThen) := (host.removed, host.past);
    delivered := true;
    r := CommitOrUndo(host, job, a, delivery.marker);
    AccountedAgain(job, a, removedThen, host.removed, |removed|, pastThen, host.past, |past| - 1);
  }

  /** Two accounted stretches are one. */
  lemma AccountedAgain(job: Job, a: Attempt, removed: seq<Removal>, more: seq<Removal>, n: nat, past: seq<World>, later: seq<World>, from: nat)
    requires removed <= more && past <= later && from < |past| && Accounted(job, a, removed, n, past, from)
    requires Accounted(job, a, more, |removed|, later, |past| - 1)
    ensures Accounted(job, a, more, n, later, from)
  {
    hide Known;
    forall k | n <= k < |more| ensures more[k].name == Staged(job, a.stagingToken) || Known(job, a, later, from, more[k].inode) {
      if k < |removed| {
        assert more[k] == removed[k];
        if Known(job, a, past, from, removed[k].inode) { KnownLater(job, a, past, later, from, from, removed[k].inode); }
      } else if Known(job, a, later, |past| - 1, more[k].inode) {
        KnownLater(job, a, later, later, |past| - 1, from, more[k].inode);
      }
    }
  }

  /** The key file already held the committed key, this run committed it, or this run raised. */
  datatype Ensured = Unchanged | Created | Raised

  lemma OutputWithoutMarker(job: Job, w: World)
    requires Inv(job, w) && MarkerName(job.file) !in w.disk.Live()
    ensures job.file in w.disk.Live() <==> w.issued.Some?
    ensures w.issued.Some? ==> Committed(job, w)
  {
    assert DirOk(job, w.disk.files, w.issued, w.disk.dirs[|w.disk.dirs| - 1]);
  }

  /** The file is settled: it holds exactly the committed key, and no marker is left. */
  ghost predicate Settled(job: Job, w: World)
    requires |w.disk.dirs| > 0
  {
    Committed(job, w) && MarkerName(job.file) !in w.disk.Live()
  }

  /** Creates or recovers one private key file; whatever other processes do, it unlinks only its own marker copy and inodes it knows. */
  method EnsureCompatibilityKey(host: Host, job: Job, a: Attempt) returns (r: Ensured)
    requires Steady(job, host) && Usable(job, a)
    modifies host
    ensures Steady(job, host) && Onward(host)
    ensures Accounted(job, a, host.removed, |old(host.removed)|, host.past, |old(host.past)| - 1)
    ensures host.quiet && !r.Raised? ==> Settled(job, Now(host))
    ensures host.quiet && r.Unchanged? ==> host.issued == old(host.issued)
    ensures host.quiet && r.Created? ==> old(host.issued).None? && host.issued == Some(a.evidence)
    ensures host.quiet && old(host.issued).Some? ==> host.issued == old(host.issued)
    ensures host.quiet && old(Settled(job, Now(host))) && Unrefused(host) ==> Now(host) == old(Now(host))
    ensures host.quiet && Unrefused(host) && FreshNames(job, old(host.Live()), a) ==>
              r == if old(host.issued).Some? then Unchanged else Created
  {
    hide Sound, Inv, Accounted, Saw, Encode;
    ghost var (removed, past) := (host.removed, host.past);
    var recovery, seen := Recover(host, job);
    RecoverAccounted(job, a, removed, host.removed, past, host.past, seen);
    ghost var (removedThen, pastThen) := (host.removed, host.past);
    if recovery.Recovered? {
      var ok := SettleCommitted(host, job, a);
      AccountedAgain(job, a, removedThen, host.removed, |removed|, pastThen, host.past, |past| - 1);
      return if ok then Unchanged else Raised;
    }
    if !recovery.Proceed? {
      return Raised;
    }
    r := AuthenticateOrIssue(host, job, a);
    AccountedAgain(job, a, removedThen, host.removed, |removed|, pastThen, host.past, |past| - 1);
  }

  lemma RecoverAccounted(job: Job, a: Attempt, removed: seq<Removal>, more: seq<Removal>, past: seq<World>, later: seq<World>,
                         seen: Option<(Marker, Identity)>)
    requires past != [] && past <= later && removed <= more
    requires forall k :: |removed| <= k < |more| ==>
               more[k].inode in if seen.Some? then {seen.value.0.target, seen.value.1.inode} else {}
    requires seen.Some? ==> Saw(later, |past| - 1, MarkerName(job.file), seen.value.1.inode, Encode(seen.value.0))
    ensures Accounted(job, a, more, |removed|, later, |past| - 1)
  {
    hide Saw, Encode, Known;
    if seen.Some? { MarkerKnown(job, a, later, |past| - 1, seen.value.0, seen.value.1.inode); }
  }

  /** No marker is in place: an existing file must hold a known key, and a missing one is issued. */
  method AuthenticateOrIssue(host: Host, job: Job, a: Attempt) returns (r: Ensured)
    requires Steady(job, host) && Usable(job, a) && (host.quiet ==> MarkerName(job.file) !in host.Live())
    modifies host
    ensures Steady(job, host) && Onward(host)
    ensures Accounted(job, a, host.removed, |old(host.removed)|, host.past, |old(host.past)| - 1)
    ensures host.quiet && !r.Raised? ==> Settled(job, Now(host))
    ensures host.quiet && r.Unchanged? ==> host.issued == old(host.issued)
    ensures host.quiet && r.Created? ==> old(host.issued).None? && host.issued == Some(a.evidence)
    ensures host.quiet && old(host.issued).Some? ==> Now(host) == old(Now(host))
    ensures host.quiet && Unrefused(host) && FreshNames(job, old(host.Live()), a) ==>
              r == if old(host.issued).Some? then Unchanged else Created
    ensures host.quiet && Unrefused(host) && old(host.issued).Some? ==> r == Unchanged
  {
    hide Sound, Inv, Accounted;
    if host.quiet {
      Current(job, host);
      OutputWithoutMarker(job, Now(host));
    }
    ghost var (removed, past) := (host.removed, host.past);
    var there := Exists(host, job, job.file);
    NothingRemoved(job, a, host.removed, host.past, |past| - 1);
    if there {
      r := Authenticate(host, job);
      NothingRemoved(job, a, host.removed, host.past, |past| - 1);
      return;
    }
    ghost var pastThen := host.past;
    r := IssueAndSettle(host, job, a);
    AccountedAgain(job, a, removed, host.removed, |removed|, pastThen, host.past, |past| - 1);
  }

  lemma NothingRemoved(job: Job, a: Attempt, removed: seq<Removal>, past: seq<World>, from: nat)
    ensures Accounted(job, a, removed, |removed|, past, from)
  {
  }

  method SettleCommitted(host: Host, job: Job, a: Attempt) returns (ok: bool)
    requires Steady(job, host) && (host.quiet ==> Committed(job, Now(host)))
    modifies host
    ensures Steady(job, host) && Onward(host)
    ensures Accounted(job, a, host.removed, |old(host.removed)|, host.past, |old(host.past)| - 1)
    ensures host.quiet ==> host.issued == old(host.issued)
    ensures host.quiet && ok ==> Settled(job, Now(host))
    ensures host.quiet && Unrefused(host) && MarkerName(job.file) in old(host.Live()) ==> ok
  {
    hide Sound, Inv, DirOk, Saw, Encode, Accounted;
    ghost var (removed, past) := (host.removed, host.past);
    ghost var seen;
    ok, seen := Settle(host, job);
    RecoverAccounted(job, a, removed, host.removed, past, host.past, seen);
    NameApart(job.file);
  }

  lemma CommittedKeyText(job: Job, w: World)
    requires Inv(job, w) && w.issued.Some?
    ensures KeyText(w.issued.value.fingerprint.rawKey)
  {
    assert DirOk(job, w.disk.files, w.issued, w.disk.dirs[0]);
  }

  /** The output was read, and held this key but for white space around it. */
  ghost predicate SawKey(job: Job, past: seq<World>, from: nat, rawKey: string) {
    exists data :: ReadAs(past, from, job.file, data) && Bare(data) == KeyCells(rawKey)
  }

  /** An existing file is accepted only when what is read from it authenticates as the key that is issued. */
  method Authenticate(host: Host, job: Job) returns (r: Ensured)
    requires Steady(job, host) && (host.quiet ==> Settled(job, Now(host)))
    modifies host
    ensures Steady(job, host) && Onward(host) && host.removed == old(host.removed) && !r.Created?
    ensures host.quiet ==> Now(host) == old(Now(host))
    ensures r.Unchanged? ==> host.issued.Some? && SawKey(job, host.past, |old(host.past)| - 1, host.issued.value.fingerprint.rawKey)
    ensures host.quiet && Unrefused(host) ==> r.Unchanged?
  {
    hide Sound, Inv, DirOk, Saw;
    if host.quiet {
      Current(job, host);
      CommittedKeyText(job, Now(host));
      BarePayload(host.issued.value.fingerprint.rawKey);
    }
    var text := ReadText(host, job, job.file);
    r := if text.Some? && host.issued.Some? && Bare(text.value) == KeyCells(host.issued.value.fingerprint.rawKey) then Unchanged else Raised;
  }

  method IssueAndSettle(host: Host, job: Job, a: Attempt) returns (r: Ensured)
    requires Steady(job, host) && Usable(job, a)
    requires host.quiet ==> host.issued.None? && MarkerName(job.file) !in host.Live()
    modifies host
    ensures Steady(job, host) && Onward(host) && !r.Unchanged?
    ensures Accounted(job, a, host.removed, |old(host.removed)|, host.past, |old(host.past)| - 1)
    ensures host.quiet && r.Created? ==> Settled(job, Now(host)) && host.issued == Some(a.evidence)
    ensures host.quiet && Unrefused(host) && FreshNames(job, old(host.Live()), a) ==> r.Created?
  {
    hide Sound, Inv, DirOk, Committed, Accounted;
    ghost var (removed, past) := (host.removed, host.past);
    var issue, _ := IssueKey(host, job, a);
    if !issue.Issued? {
      return Raised;
    }
    ghost var (removedThen, pastThen) := (host.removed, host.past);
    var ok := SettleCommitted(host, job, a);
    AccountedAgain(job, a, removedThen, host.removed, |removed|, pastThen, host.past, |past| - 1);
    return if ok then Created else Raised;
  }

  /** Any number of runs, each of which may be refused anywhere, raise, or be cut off by a crash in any state
      it passed through: the invariant holds throughout and a committed key stays the committed key. */
  method Operate(host: Host, job: Job, runs: nat)
    requires host.quiet && Sound(job, host)
    modifies host
    ensures Sound(job, host)
    ensures old(host.issued).Some? ==> host.issued == old(host.issued)
  {
    for run := 0 to runs
      invariant Sound(job, host)
      invariant old(host.issued).Some? ==> host.issued == old(host.issued)
    {
      OneRun(host, job);
    }
  }

  /** Convergence: after any such runs, one run that nothing refuses settles the file on one committed key, and
      keeps the key if an earlier run committed it. */
  method Converge(host: Host, job: Job, runs: nat, a: Attempt) returns (r: Ensured, ghost before: World)
    requires host.quiet && Sound(job, host) && Usable(job, a)
    modifies host
    ensures Sound(job, host) && before.disk.Ok()
    ensures old(host.issued).Some? ==> before.issued == old(host.issued)
    ensures FreshNames(job, before.disk.Live(), a) ==>
              && Settled(job, Now(host))
              && (if before.issued.Some? then r == Unchanged && host.issued == before.issued
                  else r == Created && host.issued == Some(a.evidence))
  {
    hide Inv;
    Operate(host, job, runs);
    host.reliable := true;
    before := Now(host);
    r := EnsureCompatibilityKey(host, job, a);
  }

  method OneRun(host: Host, job: Job)
    requires host.quiet && Sound(job, host)
    modifies host
    ensures Sound(job, host)
    ensures old(host.issued).Some? ==> host.issued == old(host.issued)
  {
    hide Inv;
    var reliable: bool := *;
    host.reliable := reliable;
    var a: Attempt := *;
    var began := |host.past| - 1;
    ghost var first := host.past[began];
    if Usable(job, a) {
      var _ := EnsureCompatibilityKey(host, job, a);
    }
    assert host.past[began] == first;
    var cut: int := *;
    var survived: Disk := *;
    if began <= cut < |host.past| {
      CrashedRun(host, job, cut, survived);
    }
  }

  /** A crash in a recorded state keeps everything that state had. */
  method CrashedRun(host: Host, job: Job, cut: nat, survived: Disk)
    requires Sound(job, host) && cut < |host.past|
    modifies host
    ensures Sound(job, host) && host.issued == old(host.past)[cut].issued
    ensures CrashView(old(host.past)[cut].disk, host.disk)
    ensures Guarded(job, host.issued, host.disk)
  {
    ghost var was := host.past[cut];
    assert Inv(job, was);
    host.Restart(cut, survived);
    CrashKeepsInv(job, was, host.disk);
    CrashLeavesSecretGuarded(job, was, host.disk);
  }
}
