/** The machine on which a one-time key is delivered: one directory, its files, and one key row.
    A crash keeps some directory state recorded since the last directory sync, and for each file
    some contents it has held since its own last sync. */
module KeyDirectory {
  import opened Wrappers
  import opened Texts

  /** Device and inode number together. */
  type Inode = nat

  /** A keyed fingerprint of the raw key; it determines the key. */
  datatype Fingerprint = Hmac(rawKey: string)

  /** A SHA-256 digest; it determines what was hashed. */
  datatype Digest = Sha256(of: seq<Cell>)

  /** The content whose digest is the request digest. */
  datatype Request = Request(organization: string, identity: string, keyId: string, expiresAt: Option<string>)

  datatype Evidence = Evidence(organization: string, identity: string, keyId: string, operation: Option<string>,
                               request: Request, prefix: string, fingerprint: Fingerprint)

  datatype Marker = Marker(evidence: Evidence, targetPath: string, output: Digest, outputLength: nat,
                           reservation: string, target: Inode)

  /** One byte of a file: a byte of this command's key output, one position of a marker's canonical text, or a byte of any other
      file, another command's key output included. */
  datatype Cell = Char(c: char) | Text(marker: Marker, at: nat) | Other(byte: nat)

  /** `stale` holds the other contents a crash may still leave in place of `data`. */
  datatype File = File(regular: bool, private: bool, data: seq<Cell>, stale: set<seq<Cell>>) {
    function Versions(): set<seq<Cell>> { {data} + stale }

    predicate Plain() { regular && private }

    /** Exactly these bytes, now and after any crash. */
    predicate Holds(bytes: seq<Cell>) { Plain() && data == bytes && stale == {} }

    /** No byte of this command's key in any contents a crash may leave. */
    ghost predicate Clean() {
      forall v: seq<Cell>, k :: v in Versions() && 0 <= k < |v| ==> !v[k].Char?
    }

    ghost predicate Empty() { forall v: seq<Cell> :: v in Versions() ==> v == [] }
  }

  type Directory = map<string, Inode>

  /** `dirs` lists the directory states a crash may leave; the last one is live. */
  datatype Disk = Disk(files: map<Inode, File>, dirs: seq<Directory>) {
    predicate Ok() {
      |dirs| > 0 && forall k | 0 <= k < |dirs| :: forall n | n in dirs[k] :: dirs[k][n] in files
    }

    /** The name leads to this inode, which holds these bytes. */
    predicate Shows(name: string, inode: Inode, data: seq<Cell>) {
      dirs != [] && name in Live() && Live()[name] == inode && inode in files && files[inode].data == data
    }

    function Live(): Directory
      requires |dirs| > 0
    {
      dirs[|dirs| - 1]
    }

    function Entered(name: string, inode: Inode): Disk
      requires |dirs| > 0
    {
      this.(dirs := dirs + [Live()[name := inode]])
    }

    function Unlinked(name: string): Disk
      requires |dirs| > 0
    {
      this.(dirs := dirs + [Live() - {name}])
    }

    function Created(name: string, inode: Inode): Disk
      requires |dirs| > 0
    {
      Disk(files[inode := File(true, true, [], {})], dirs + [Live()[name := inode]])
    }

    function Synced(): Disk
      requires |dirs| > 0
    {
      this.(dirs := [Live()])
    }

    function Wrote(inode: Inode, chunk: seq<Cell>): Disk
      requires inode in files
    {
      var f := files[inode];
      this.(files := files[inode := f.(data := f.data + chunk, stale := f.Versions())])
    }

    function FileSynced(inode: Inode): Disk
      requires inode in files
    {
      this.(files := files[inode := files[inode].(stale := {})])
    }
  }

  /** `issued` is the committed key row together with its operation receipt. */
  datatype World = World(disk: Disk, issued: Option<Evidence>)

  /** `after` is a state the machine may restart in after a crash in `before`. */
  predicate CrashView(before: Disk, after: Disk) {
    && (exists k | 0 <= k < |before.dirs| :: after.dirs == [before.dirs[k]])
    && after.files.Keys == before.files.Keys
    && forall i | i in before.files ::
      && after.files[i].regular == before.files[i].regular
      && after.files[i].private == before.files[i].private
      && after.files[i].data in before.files[i].Versions()
      && after.files[i].stale == {}
  }

  /** Length of a marker's text; recovery reads at most 16 KiB of it. */
  const MARKER_LENGTH := 1024
  const MARKER_LIMIT := 16 * 1024
  const KEY_OUTPUT_LENGTH := 64

  function Encode(m: Marker): (text: seq<Cell>)
    ensures |text| == MARKER_LENGTH
  {
    seq(MARKER_LENGTH, k requires 0 <= k => Text(m, k))
  }

  /** Only the complete text decodes. */
  function Decode(text: seq<Cell>): Option<Marker> {
    if |text| == MARKER_LENGTH && text[0].Text? && text == Encode(text[0].marker) then Some(text[0].marker) else None
  }

  lemma DecodeEncode(m: Marker)
    ensures Decode(Encode(m)) == Some(m)
    ensures forall k :: 0 <= k < |Encode(m)| ==> Encode(m)[k].Text?
  {
    assert Encode(m)[0] == Text(m, 0);
  }

  /** The output bytes: the raw key and a newline. */
  function Payload(rawKey: string): (bytes: seq<Cell>)
    ensures |bytes| == |rawKey| + 1
  {
    seq(|rawKey|, k requires 0 <= k < |rawKey| => Char(rawKey[k])) + [Char('\n')]
  }

  /** A key that no surrounding white space can hide in. */
  predicate KeyText(rawKey: string) { rawKey != [] && !White(rawKey[0]) && !White(rawKey[|rawKey| - 1]) }

  function KeyCells(rawKey: string): (bytes: seq<Cell>)
    ensures |bytes| == |rawKey|
  {
    seq(|rawKey|, k requires 0 <= k < |rawKey| => Char(rawKey[k]))
  }

  predicate Blank(cell: Cell) { cell.Char? && White(cell.c) }

  /** A text without the white space around it. */
  function Bare(text: seq<Cell>): seq<Cell> {
    if text != [] && Blank(text[0]) then Bare(text[1..])
    else if text != [] && Blank(text[|text| - 1]) then Bare(text[..|text| - 1])
    else text
  }

  lemma BarePayload(rawKey: string)
    requires KeyText(rawKey)
    ensures Bare(Payload(rawKey)) == KeyCells(rawKey)
  {
    var text := Payload(rawKey);
    assert text[..|text| - 1] == KeyCells(rawKey);
  }

  /** What one no-follow stat reports, without its two time stamps. */
  datatype Identity = Identity(inode: Inode, size: nat)

  datatype Removal = Removal(name: string, inode: Inode)

  /** Every method is one system call or one database statement. Without `quiet`, another process may
      change the directory before each of them; without `reliable`, each may also be refused, and `refusals` counts those that were;
      `outdated` counts the removals refused because the stat they relied on was out of date. */
  class Host {
    const quiet: bool
    var reliable: bool
    var disk: Disk
    var issued: Option<Evidence>
    var past: seq<World>
    ghost var removed: seq<Removal>
    ghost var refusals: nat
    ghost var outdated: nat

    ghost predicate Valid()
      reads this
    {
      disk.Ok() && past != [] && past[|past| - 1] == World(disk, issued)
    }

    function Live(): Directory
      reads this
      requires |disk.dirs| > 0
    {
      disk.Live()
    }

    /** Whether `name` now is the regular file an earlier stat described. */
    predicate Names(name: string, id: Identity)
      reads this
      requires disk.Ok()
    {
      name in Live() && Live()[name] == id.inode && disk.files[id.inode].regular && |disk.files[id.inode].data| == id.size
    }

    /** The state moved to `d`, and the move is on record. */
    twostate predicate Step(d: Disk)
      reads this
    {
      disk == d && issued == old(issued) && past == old(past) + [World(d, issued)]
    }

    twostate predicate Idle()
      reads this
    {
      disk == old(disk) && issued == old(issued) && past == old(past)
    }

    twostate predicate NothingRemoved()
      reads this
    {
      removed == old(removed) && RefusalsCounted() && old(past) <= past
    }

    /** No call was refused since then. */
    twostate predicate Unrefused()
      reads this
    {
      refusals == old(refusals)
    }

    twostate predicate RefusalsCounted()
      reads this
    {
      reliable == old(reliable) && old(refusals) <= refusals && old(outdated) <= outdated && (reliable ==> Unrefused())
    }

    constructor (quiet: bool, reliable: bool, disk: Disk, issued: Option<Evidence>)
      requires disk.Ok()
      ensures Valid() && this.quiet == quiet && this.reliable == reliable && this.disk == disk && this.issued == issued
      ensures past == [World(disk, issued)] && removed == [] && refusals == 0
    {
      this.quiet := quiet;
      this.reliable := reliable;
      this.disk := disk;
      this.issued := issued;
      past := [World(disk, issued)];
      removed := [];
      refusals, outdated := 0, 0;
    }

    /** Whatever other processes do between two steps. */
    method Interfere()
      requires Valid()
      modifies this
      ensures Valid() && NothingRemoved() && Unrefused()
      ensures quiet ==> Idle()
    {
      var d: Disk := *;
      var row: Option<Evidence> := *;
      if !quiet && d.Ok() {
        disk, issued := d, row;
        past := past + [World(d, row)];
      }
    }

    method Refused() returns (no: bool)
      modifies this`refusals
      ensures RefusalsCounted() && refusals == old(refusals) + if no then 1 else 0
    {
      no := *;
      no := no && !reliable;
      if no { refusals := refusals + 1; }
    }

    method Exists(name: string) returns (there: bool)
      requires Valid()
      modifies this
      ensures Valid() && NothingRemoved()
      ensures quiet ==> Idle()
      ensures there == (name in Live())
    {
      Interfere();
      there := name in Live();
    }

    method CreateExclusive(name: string) returns (made: Option<Inode>)
      requires Valid()
      modifies this
      ensures Valid() && NothingRemoved()
      ensures quiet && made.None? ==> Idle()
      ensures quiet && made.Some? ==>
                && name !in old(Live()) && made.value !in old(disk.files)
                && Step(old(disk).Created(name, made.value))
      ensures made.Some? ==> disk.Shows(name, made.value, [])
      ensures quiet && Unrefused() && name !in old(Live()) ==> made.Some?
    {
      Interfere();
      var no := Refused();
      if no || name in Live() {
        return None;
      }
      var i := FreshInode();
      disk := disk.Created(name, i);
      past := past + [World(disk, issued)];
      return Some(i);
    }

    method FreshInode() returns (i: Inode)
      requires Valid()
      ensures i !in disk.files
    {
      i := 0;
      var rest := disk.files.Keys;
      while rest != {}
        invariant forall k :: k in disk.files.Keys && k !in rest ==> k < i
        decreases |rest|
      {
        var k :| k in rest;
        if i <= k { i := k + 1; }
        rest := rest - {k};
      }
    }

    /** Writes through an open descriptor, possibly only part of the bytes. */
    method Write(inode: Inode, bytes: seq<Cell>) returns (count: Option<nat>)
      requires Valid()
      requires quiet ==> inode in disk.files
      modifies this
      ensures Valid() && NothingRemoved()
      ensures count.Some? ==> count.value <= |bytes|
      ensures quiet && count.None? ==> Idle()
      ensures quiet && count.Some? ==> Step(old(disk).Wrote(inode, bytes[..count.value]))
      ensures quiet && Unrefused() ==> count.Some? && (|bytes| > 0 ==> count.value > 0)
    {
      Interfere();
      var no := Refused();
      if no || inode !in disk.files {
        return None;
      }
      var n: int := *;
      if !(0 <= n <= |bytes|) || (reliable && n == 0) { n := |bytes|; }
      if n == 0 && bytes != [] { refusals := refusals + 1; }
      disk := disk.Wrote(inode, bytes[..n]);
      past := past + [World(disk, issued)];
      return Some(n);
    }

    method SyncFile(inode: Inode) returns (ok: bool)
      requires Valid()
      requires quiet ==> inode in disk.files
      modifies this
      ensures Valid() && NothingRemoved()
      ensures quiet ==> if ok then Step(old(disk).FileSynced(inode)) else Idle()
      ensures quiet && Unrefused() ==> ok
    {
      Interfere();
      var no := Refused();
      if no || inode !in disk.files {
        return false;
      }
      disk := disk.FileSynced(inode);
      past := past + [World(disk, issued)];
      return true;
    }

    method SyncDirectory() returns (ok: bool)
      requires Valid()
      modifies this
      ensures Valid() && NothingRemoved()
      ensures quiet ==> if ok then Step(old(disk).Synced()) else Idle()
      ensures quiet && Unrefused() ==> ok
    {
      Interfere();
      var no := Refused();
      if no {
        return false;
      }
      disk := disk.Synced();
      past := past + [World(disk, issued)];
      return true;
    }

    method Link(source: string, name: string) returns (ok: bool)
      requires Valid()
      modifies this
      ensures Valid() && NothingRemoved()
      ensures quiet ==>
                if ok then
                  source in old(Live()) && name !in old(Live()) && Step(old(disk).Entered(name, old(Live())[source]))
                else
                  Idle()
      ensures quiet && Unrefused() && source in old(Live()) && name !in old(Live()) ==> ok
    {
      Interfere();
      var no := Refused();
      if no || source !in Live() || name in Live() {
        return false;
      }
      disk := disk.Entered(name, Live()[source]);
      past := past + [World(disk, issued)];
      return true;
    }

    /** Removes an entry by name alone. */
    method Unlink(name: string) returns (ok: bool)
      requires Valid()
      modifies this
      ensures Valid() && RefusalsCounted() && old(past) <= past
      ensures if ok then exists i :: removed == old(removed) + [Removal(name, i)] else removed == old(removed)
      ensures quiet ==> if ok then name in old(Live()) && Step(old(disk).Unlinked(name)) else Idle()
      ensures quiet && Unrefused() && name in old(Live()) ==> ok
    {
      Interfere();
      var no := Refused();
      if no || name !in Live() {
        return false;
      }
      removed := removed + [Removal(name, Live()[name])];
      disk := disk.Unlinked(name);
      past := past + [World(disk, issued)];
      return true;
    }

    /** Removes an entry only if a final stat still names the verified file; stat and unlink are one step. Unless the identity is
        `current`, the inode has been linked or unlinked since it was taken, and its change time may tell. */
    method UnlinkExact(name: string, id: Identity, current: bool) returns (ok: bool)
      requires Valid()
      modifies this
      ensures Valid() && RefusalsCounted() && old(past) <= past
      ensures removed == old(removed) + if ok then [Removal(name, id.inode)] else []
      ensures quiet ==> if ok then old(Names(name, id)) && Step(old(disk).Unlinked(name)) else Idle()
      ensures quiet && Unrefused() && old(Names(name, id)) ==> ok || (!current && outdated > old(outdated))
    {
      Interfere();
      var no := Refused();
      var moved: bool := *;
      if no || !Names(name, id) {
        return false;
      }
      if !current && moved {
        outdated := outdated + 1;
        return false;
      }
      removed := removed + [Removal(name, Live()[name])];
      disk := disk.Unlinked(name);
      past := past + [World(disk, issued)];
      return true;
    }

    /** The identity of `name` when it is the marker's recorded private file, of bounded size. */
    method RecordedInode(name: string, marker: Marker) returns (id: Option<Identity>)
      requires Valid()
      modifies this
      ensures Valid() && NothingRemoved()
      ensures id.Some? ==> id.value.inode == marker.target
      ensures quiet ==> Idle()
      ensures id.Some? ==> Names(name, id.value)
      ensures (
                && quiet && Unrefused() && name in Live() && Live()[name] == marker.target
                && disk.files[marker.target].Plain() && |disk.files[marker.target].data| <= marker.outputLength
              ) ==> id.Some?
    {
      Interfere();
      var no := Refused();
      if no || name !in Live() {
        return None;
      }
      var f := disk.files[Live()[name]];
      if !f.Plain() || |f.data| > marker.outputLength || Live()[name] != marker.target {
        return None;
      }
      return Some(Identity(Live()[name], |f.data|));
    }

    /** Reads one bounded private regular file. */
    method ReadPrivate(name: string, limit: nat) returns (r: Option<(seq<Cell>, Identity)>)
      requires Valid()
      modifies this
      ensures Valid() && NothingRemoved()
      ensures quiet ==> Idle()
      ensures r.Some? ==> Names(name, r.value.1) && disk.Shows(name, r.value.1.inode, r.value.0)
                          && disk.files[Live()[name]].Plain() && |r.value.0| <= limit
      ensures (
                && quiet && Unrefused() && name in Live()
                && disk.files[Live()[name]].Plain() && |disk.files[Live()[name]].data| <= limit
              ) ==> r.Some?
    {
      Interfere();
      var no := Refused();
      if no || name !in Live() {
        return None;
      }
      var f := disk.files[Live()[name]];
      if !f.Plain() || |f.data| > limit {
        return None;
      }
      return Some((f.data, Identity(Live()[name], |f.data|)));
    }

    /** Reads the key row and its receipt: committed, absent, or not provable. */
    method Reconcile(evidence: Evidence) returns (outcome: Option<bool>)
      requires Valid()
      modifies this
      ensures Valid() && NothingRemoved()
      ensures quiet ==> Idle()
      ensures quiet && outcome == Some(true) ==> issued == Some(evidence)
      ensures quiet && outcome == Some(false) ==> issued.None?
      ensures quiet && Unrefused() && (issued.Some? ==> issued.value == evidence) ==> outcome == Some(issued.Some?)
    {
      Interfere();
      var no := Refused();
      if no {
        return None;
      }
      if issued.None? {
        return Some(false);
      }
      return if issued.value == evidence then Some(true) else None;
    }

    /** COMMIT: it may land and still report an error. */
    method Commit(evidence: Evidence) returns (reported: bool)
      requires Valid()
      modifies this
      ensures Valid() && NothingRemoved()
      ensures quiet ==>
                || (Idle() && !reported)
                || (disk == old(disk) && issued == Some(evidence) && past == old(past) + [World(disk, issued)])
      ensures quiet && Unrefused() ==> reported
    {
      Interfere();
      var no := Refused();
      if no {
        var landed: bool := *;
        if landed {
          issued := Some(evidence);
          past := past + [World(disk, issued)];
        }
        return false;
      }
      issued := Some(evidence);
      past := past + [World(disk, issued)];
      return true;
    }

    /** Reads a regular file, whoever may read it. */
    method ReadText(name: string) returns (r: Option<seq<Cell>>)
      requires Valid()
      modifies this
      ensures Valid() && NothingRemoved()
      ensures quiet ==> Idle()
      ensures r.Some? ==> name in Live() && disk.Shows(name, Live()[name], r.value)
      ensures quiet && Unrefused() && name in Live() && disk.files[Live()[name]].regular ==> r.Some?
    {
      Interfere();
      var no := Refused();
      if no || name !in Live() || !disk.files[Live()[name]].regular {
        return None;
      }
      return Some(disk.files[Live()[name]].data);
    }

    /** Restarts after a crash in recorded state `k`, in some state that crash may leave; what followed `k`
        never happened. */
    method Restart(k: nat, survived: Disk)
      requires Valid() && k < |past| && past[k].disk.Ok()
      modifies this
      ensures Valid() && removed == old(removed) && RefusalsCounted() && Unrefused()
      ensures issued == old(past)[k].issued && past == old(past)[..k + 1] + [World(disk, issued)]
      ensures CrashView(old(past)[k].disk, disk)
    {
      var was := past[k];
      if survived.Ok() && CrashView(was.disk, survived) {
        disk := survived;
      } else {
        disk := Disk(map i | i in was.disk.files :: was.disk.files[i].(stale := {}), [was.disk.Live()]);
        assert disk.dirs == [was.disk.dirs[|was.disk.dirs| - 1]];
      }
      issued := was.issued;
      past := past[..k + 1] + [World(disk, issued)];
    }
  }
}
