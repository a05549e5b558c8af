/** The airbridge service (main.py): the harvest cycle that takes the
    virtual disk away from the host, uploads its files over the modem and
    gives it back; the boot phase that first uploads the archives left in
    the outbox; and the monitor that decides when to harvest.

    The host side is a record of actions: the mass-storage gadget module
    (modprobe), the local mount of the disk and file deletions, in the
    order they happen. The files on the disk are a map from path to bytes.
    Results of the system commands and the contents of directory listings
    are inputs. Time is the modem's millisecond clock: outside the modem
    only the explicit sleeps advance it. */
module Airbridge {
  import opened Text
  import opened Transaction
  import opened ModemParse
  import opened ModemHandler
  import opened HarvestScan
  import opened DiskStats

  /** What the service does to the disk: unload or load the mass-storage
      gadget, unmount it locally (`held` when the mount survived the umount,
      which failed with the disk mounted, for instance because it was busy),
      mount it locally (with the mount's outcome), or delete a file on the
      local mount. */
  datatype Action = UnloadGadget | LoadGadget | Unmount(held: bool) | Mount(ok: bool) | Remove(path: string)

  /** How the local mount commands of one harvest or boot attempt went:
      whether the umount that clears a stale mount left a mount in place,
      whether the mount worked, and whether the final umount left the disk
      mounted. main.py checks only the mount's exit status. */
  datatype Mounting = Mounting(staleHeld: bool, mountOk: bool, finalHeld: bool)

  /** The entries of config.yaml the service reads. */
  datatype Config = Config(
    diskPath: string, mountPoint: string, outboxDir: string,
    server: string, port: nat, user: string, password: string, remotePath: string,
    apn: string, bootUploadTimeoutS: nat, quietWindowS: int, pollIntervalS: nat)

  // ---------------------------------------------------------------------
  // Exclusive access to the disk
  // ---------------------------------------------------------------------

  /** Who can see the disk: the host through the gadget, the Pi through
      its local mount. */
  datatype Disk = Disk(gadget: bool, mounted: bool)

  function Apply(d: Disk, a: Action): Disk {
    match a
    case UnloadGadget => d.(gadget := false)
    case LoadGadget => d.(gadget := true)
    case Unmount(held) => d.(mounted := d.mounted && held)
    case Mount(ok) => d.(mounted := d.mounted || ok)
    case Remove(_) => d
  }

  /** The disk is never shared: it is mounted only while the gadget is
      unloaded, the gadget is loaded only while the disk is not mounted,
      and files are deleted only through the local mount. */
  predicate Allowed(d: Disk, a: Action) {
    match a
    case Mount(_) => !d.gadget
    case LoadGadget => !d.mounted
    case Remove(_) => d.mounted && !d.gadget
    case _ => true
  }

  predicate Exclusive(d: Disk, acts: seq<Action>)
    decreases |acts|
  {
    acts == [] || (Allowed(d, acts[0]) && Exclusive(Apply(d, acts[0]), acts[1..]))
  }

  function After(d: Disk, acts: seq<Action>): Disk
    decreases |acts|
  {
    if acts == [] then d else After(Apply(d, acts[0]), acts[1..])
  }

  /** Running two action sequences one after the other. */
  lemma {:induction false} ExclusiveAppend(d: Disk, a: seq<Action>, b: seq<Action>)
    ensures Exclusive(d, a + b) <==> Exclusive(d, a) && Exclusive(After(d, a), b)
    ensures After(d, a + b) == After(After(d, a), b)
    decreases |a|
  {
    if a == [] {
      assert a + b == b;
    } else {
      assert (a + b)[0] == a[0] && (a + b)[1..] == a[1..] + b;
      ExclusiveAppend(Apply(d, a[0]), a[1..], b);
    }
  }

  /** One action, then the rest. */
  lemma ExclusiveCons(d: Disk, a: Action, rest: seq<Action>)
    ensures Exclusive(d, [a] + rest) <==> Allowed(d, a) && Exclusive(Apply(d, a), rest)
    ensures After(d, [a] + rest) == After(Apply(d, a), rest)
  {
    assert ([a] + rest)[0] == a && ([a] + rest)[1..] == rest;
  }

  // ---------------------------------------------------------------------
  // Deleting exactly the uploaded files
  // ---------------------------------------------------------------------

  /** The deletions of a run of uploads over `paths` with results `ok`: a
      file is removed right after its own upload succeeded, and only then. */
  function Removals(paths: seq<string>, ok: seq<bool>): seq<Action>
    requires |paths| == |ok|
  {
    if paths == [] then []
    else Removals(paths[..|paths| - 1], ok[..|ok| - 1]) + (if ok[|ok| - 1] then [Remove(paths[|paths| - 1])] else [])
  }

  /** The paths those deletions remove. */
  function Removed(paths: seq<string>, ok: seq<bool>): set<string>
    requires |paths| == |ok|
  {
    if paths == [] then {}
    else Removed(paths[..|paths| - 1], ok[..|ok| - 1]) + (if ok[|ok| - 1] then {paths[|paths| - 1]} else {})
  }

  predicate AllOk(ok: seq<bool>) {
    forall k :: 0 <= k < |ok| ==> ok[k]
  }

  predicate NoneOk(ok: seq<bool>) {
    forall k :: 0 <= k < |ok| ==> !ok[k]
  }

  lemma AllOkSnoc(ok: seq<bool>, b: bool)
    ensures AllOk(ok + [b]) <==> AllOk(ok) && b
  {
    var s := ok + [b];
    assert s[|ok|] == b;
    assert forall k :: 0 <= k < |ok| ==> s[k] == ok[k];
  }

  /** A deletion happens for a path iff one of its uploads succeeded. */
  lemma {:induction false} RemovalsExactly(paths: seq<string>, ok: seq<bool>, p: string)
    requires |paths| == |ok|
    ensures Remove(p) in Removals(paths, ok) <==> exists k :: 0 <= k < |paths| && paths[k] == p && ok[k]
    ensures p in Removed(paths, ok) <==> exists k :: 0 <= k < |paths| && paths[k] == p && ok[k]
    decreases |paths|
  {
    if paths != [] {
      var n := |paths| - 1;
      var init, initOk := paths[..n], ok[..n];
      var acts := if ok[n] then [Remove(paths[n])] else [];
      var gone := if ok[n] then {paths[n]} else {};
      RemovalsExactly(init, initOk, p);
      assert Removals(paths, ok) == Removals(init, initOk) + acts;
      assert Removed(paths, ok) == Removed(init, initOk) + gone;
      assert Remove(p) in acts <==> p in gone;
      if p in Removed(paths, ok) {
        if p in gone {
          assert paths[n] == p && ok[n];
        } else {
          var k :| 0 <= k < n && init[k] == p && initOk[k];
          assert paths[k] == p && ok[k];
        }
      }
      if exists k :: 0 <= k < |paths| && paths[k] == p && ok[k] {
        var k :| 0 <= k < |paths| && paths[k] == p && ok[k];
        if k < n {
          assert init[k] == p && initOk[k];
        } else {
          assert p in gone;
        }
      }
    }
  }

  /** Without a successful upload nothing is deleted. */
  lemma {:induction false} NoSuccessNoRemoval(paths: seq<string>, ok: seq<bool>)
    requires |paths| == |ok| && NoneOk(ok)
    ensures Removals(paths, ok) == [] && Removed(paths, ok) == {}
    decreases |paths|
  {
    if paths != [] {
      NoSuccessNoRemoval(paths[..|paths| - 1], ok[..|ok| - 1]);
    }
  }

  /** One more upload of the run. */
  lemma RemovalsSnoc(paths: seq<string>, ok: seq<bool>, p: string, b: bool)
    requires |paths| == |ok|
    ensures Removals(paths + [p], ok + [b]) == Removals(paths, ok) + (if b then [Remove(p)] else [])
    ensures Removed(paths + [p], ok + [b]) == Removed(paths, ok) + (if b then {p} else {})
  {
    assert (paths + [p])[..|paths|] == paths;
    assert (ok + [b])[..|ok|] == ok;
  }

  /** Deleting one more file from the disk. */
  lemma RemovedSnocFiles(files: map<string, Bytes>, paths: seq<string>, ok: seq<bool>, p: string, b: bool)
    requires |paths| == |ok|
    ensures (if b then (files - Removed(paths, ok)) - {p} else files - Removed(paths, ok))
            == files - Removed(paths + [p], ok + [b])
  {
    RemovalsSnoc(paths, ok, p, b);
  }

  lemma PrefixSnoc<T>(s: seq<T>, i: nat)
    requires i < |s|
    ensures s[..i + 1] == s[..i] + [s[i]]
  {
  }

  lemma Associate3<T>(a: seq<T>, b: seq<T>, c: seq<T>)
    ensures a + b + c == a + (b + c)
  {
  }

  lemma Associate4<T>(a: seq<T>, b: seq<T>, c: seq<T>, d: seq<T>)
    ensures a + b + c + d == a + (b + c + d)
  {
  }

  lemma RunStart(files: map<string, Bytes>, l: seq<Action>)
    ensures l + Removals([], []) == l && files - Removed([], []) == files
  {
  }

  // ---------------------------------------------------------------------
  // The boot phase's outbox
  // ---------------------------------------------------------------------

  /** The archives the boot phase uploads. */
  predicate Archive(name: string) {
    EndsWith(name, ".zip") || EndsWith(name, ".gz")
  }

  /** get_pending_uploads: the outbox's archives in listing order, none
      when the outbox does not exist. */
  function PendingUploads(outboxDir: string, listing: Option<seq<string>>): seq<string> {
    if listing.None? then [] else ArchivesIn(outboxDir, listing.value)
  }

  function ArchivesIn(dir: string, names: seq<string>): seq<string> {
    if names == [] then []
    else ArchivesIn(dir, names[..|names| - 1]) + (if Archive(names[|names| - 1]) then [Join(dir, names[|names| - 1])] else [])
  }

  /** A path is pending iff it is the outbox's path of an archive listed there. */
  lemma ArchivesInExactly(dir: string, names: seq<string>, p: string)
    ensures p in ArchivesIn(dir, names) <==> exists f :: f in names && Archive(f) && p == Join(dir, f)
  {
    if p in ArchivesIn(dir, names) {
      ArchivesInSound(dir, names, p);
    }
    if exists f :: f in names && Archive(f) && p == Join(dir, f) {
      var f :| f in names && Archive(f) && p == Join(dir, f);
      var i :| 0 <= i < |names| && names[i] == f;
      ArchivesInComplete(dir, names, i);
    }
  }

  lemma {:induction false} ArchivesInSound(dir: string, names: seq<string>, p: string)
    requires p in ArchivesIn(dir, names)
    ensures exists f :: f in names && Archive(f) && p == Join(dir, f)
    decreases |names|
  {
    var init, last := names[..|names| - 1], names[|names| - 1];
    var extra := if Archive(last) then [Join(dir, last)] else [];
    assert names == init + [last];
    assert ArchivesIn(dir, names) == ArchivesIn(dir, init) + extra;
    if p in extra {
      assert last in names && Archive(last) && p == Join(dir, last);
    } else {
      ArchivesInSound(dir, init, p);
      var f :| f in init && Archive(f) && p == Join(dir, f);
      assert f in names;
    }
  }

  lemma {:induction false} ArchivesInComplete(dir: string, names: seq<string>, i: nat)
    requires i < |names| && Archive(names[i])
    ensures Join(dir, names[i]) in ArchivesIn(dir, names)
    decreases |names|
  {
    var init, last := names[..|names| - 1], names[|names| - 1];
    var extra := if Archive(last) then [Join(dir, last)] else [];
    assert ArchivesIn(dir, names) == ArchivesIn(dir, init) + extra;
    if i == |names| - 1 {
      assert Join(dir, names[i]) in extra;
    } else {
      assert names[i] == init[i];
      ArchivesInComplete(dir, init, i);
    }
  }

  /** The names a directory listing holds are distinct. */
  predicate Distinct(names: seq<string>) {
    forall i, j :: 0 <= i < j < |names| ==> names[i] != names[j]
  }

  /** Joining to the same directory keeps distinct names apart. */
  lemma JoinInjective(dir: string, a: string, b: string)
    requires a != b
    ensures Join(dir, a) != Join(dir, b)
  {
    var sep := if dir == [] || dir[|dir| - 1] == '/' then dir else dir + "/";
    assert Join(dir, a) == sep + a && Join(dir, b) == sep + b;
    assert a == (sep + a)[|sep|..] && b == (sep + b)[|sep|..];
  }

  /** The pending archives of a listing of distinct names are distinct. */
  lemma {:induction false} ArchivesDistinct(dir: string, names: seq<string>)
    requires Distinct(names)
    ensures Distinct(ArchivesIn(dir, names))
    decreases |names|
  {
    if names != [] {
      var init, last := names[..|names| - 1], names[|names| - 1];
      assert Distinct(init) by {
        forall i, j | 0 <= i < j < |init| ensures init[i] != init[j] {
          assert init[i] == names[i] && init[j] == names[j];
        }
      }
      ArchivesDistinct(dir, init);
      if Archive(last) {
        var ps := ArchivesIn(dir, init);
        forall i | 0 <= i < |ps| ensures ps[i] != Join(dir, last) {
          assert ps[i] in ps;
          ArchivesInExactly(dir, init, ps[i]);
          var f :| f in init && Archive(f) && ps[i] == Join(dir, f);
          var k :| 0 <= k < |init| && init[k] == f;
          assert names[k] == f && names[|names| - 1] == last;
          JoinInjective(dir, f, last);
        }
      }
    }
  }

  /** The paths among `paths` present in `files`, in order. */
  function Present(paths: seq<string>, files: map<string, Bytes>): seq<string> {
    if paths == [] then []
    else Present(paths[..|paths| - 1], files) + (if paths[|paths| - 1] in files then [paths[|paths| - 1]] else [])
  }

  lemma PresentSnoc(paths: seq<string>, files: map<string, Bytes>, p: string)
    ensures Present(paths + [p], files) == Present(paths, files) + (if p in files then [p] else [])
  {
    assert (paths + [p])[..|paths|] == paths;
  }

  /** Every path Present keeps comes from the list. */
  lemma {:induction false} PresentFrom(paths: seq<string>, files: map<string, Bytes>, p: string)
    requires p in Present(paths, files)
    ensures p in paths && p in files
    decreases |paths|
  {
    var n := |paths| - 1;
    if p != paths[n] || paths[n] !in files {
      PresentFrom(paths[..n], files, p);
    }
  }

  /** The next pending archive has not been deleted yet, so it is on the
      disk iff it was there when the uploads began. */
  lemma NotYetRemoved(todo: seq<string>, i: nat, files: map<string, Bytes>, attempted: seq<string>, uploads: seq<bool>)
    requires Distinct(todo) && i < |todo| && |attempted| == |uploads|
    requires attempted == Present(todo[..i], files)
    ensures todo[i] !in Removed(attempted, uploads)
    ensures todo[i] in files - Removed(attempted, uploads) <==> todo[i] in files
  {
    assert todo[i] !in todo[..i];
    RemovalsExactly(attempted, uploads, todo[i]);
    forall k | 0 <= k < |attempted|
      ensures attempted[k] != todo[i]
    {
      assert attempted[k] in attempted;
      PresentFrom(todo[..i], files, attempted[k]);
    }
  }

  // ---------------------------------------------------------------------
  // The upload loops on the modem's replies
  // ---------------------------------------------------------------------

  /** What the boot phase's upload loop leaves behind: how far it got
      through its list, the paths it uploaded and their outcomes, the port,
      the progress file and the files. */
  datatype UploadLoop = UploadLoop(reached: nat, attempted: seq<string>, uploads: seq<bool>,
                                   line: Line, record: Option<Progress>, files: map<string, Bytes>)

  /** The chunk size, the retries per chunk and the pause between them
      with which an upload loop calls upload_ftp. */
  datatype FtpSettings = FtpSettings(chunkSize: int, maxRetries: int, retryDelayS: nat)

  /** One upload_ftp of `path` on the port `s`: its outcome, and the port, the progress file and the files
      it leaves, the file deleted iff the upload succeeded. */
  function UploadOnce(s: Line, record: Option<Progress>, files: map<string, Bytes>, ftp: FtpSettings, path: string)
    : (bool, Line, Option<Progress>, map<string, Bytes>)
  {
    var run := FtpUpload(s, record, ftp.chunkSize, path, Stored(files, path), ftp.maxRetries, ftp.retryDelayS);
    var ok := run.r.Success?;
    (ok, run.line, ProgressAfter(run, record, path), if ok then files - {path} else files)
  }

  /** What the harvest's upload loop leaves behind: each candidate's
      outcome, the port, the progress file and the files. */
  datatype HarvestLoop = HarvestLoop(uploads: seq<bool>, line: Line, record: Option<Progress>, files: map<string, Bytes>)

  /** The upload loop of harvest_and_upload: every candidate in order,
      each on the port the previous upload left, and a failure does not
      stop the others. */
  function HarvestUploads(s: Line, record: Option<Progress>, files: map<string, Bytes>, ftp: FtpSettings, found: seq<string>)
    : HarvestLoop
    decreases |found|
  {
    if found == [] then HarvestLoop([], s, record, files)
    else
      var u := UploadOnce(s, record, files, ftp, found[0]);
      var h := HarvestUploads(u.1, u.2, u.3, ftp, found[1..]);
      h.(uploads := [u.0] + h.uploads)
  }

  /** The harvest gives every candidate exactly one outcome: a failure
      does not stop the others. */
  lemma {:induction false} HarvestCovers(s: Line, record: Option<Progress>, files: map<string, Bytes>, ftp: FtpSettings,
                                         found: seq<string>)
    ensures |HarvestUploads(s, record, files, ftp, found).uploads| == |found|
    decreases |found|
  {
    if found != [] {
      var u := UploadOnce(s, record, files, ftp, found[0]);
      HarvestCovers(u.1, u.2, u.3, ftp, found[1..]);
    }
  }

  /** The candidates after `a` are uploaded from wherever `a`'s uploads
      left the port, the progress file and the files, whatever their
      outcomes were. */
  ghost predicate HarvestSplits(s: Line, record: Option<Progress>, files: map<string, Bytes>, ftp: FtpSettings,
                                a: seq<string>, b: seq<string>)
  {
    var h := HarvestUploads(s, record, files, ftp, a);
    var g := HarvestUploads(h.line, h.record, h.files, ftp, b);
    HarvestUploads(s, record, files, ftp, a + b) == g.(uploads := h.uploads + g.uploads)
  }

  /** The harvest of any candidates splits at any point. */
  lemma {:induction false} HarvestAppend(s: Line, record: Option<Progress>, files: map<string, Bytes>, ftp: FtpSettings,
                                         a: seq<string>, b: seq<string>)
    ensures HarvestSplits(s, record, files, ftp, a, b)
    decreases |a|
  {
    if a == [] {
      assert [] + b == b;
      var g := HarvestUploads(s, record, files, ftp, b);
      assert g.uploads == [] + g.uploads;
    } else {
      var u := UploadOnce(s, record, files, ftp, a[0]);
      HarvestAppend(u.1, u.2, u.3, ftp, a[1..], b);
      HarvestSplitsCons(s, record, files, ftp, a, b);
    }
  }

  /** The split after a first candidate follows from the split of the rest. */
  lemma HarvestSplitsCons(s: Line, record: Option<Progress>, files: map<string, Bytes>, ftp: FtpSettings,
                          a: seq<string>, b: seq<string>)
    requires a != []
    requires var u := UploadOnce(s, record, files, ftp, a[0]);
      HarvestSplits(u.1, u.2, u.3, ftp, a[1..], b)
    ensures HarvestSplits(s, record, files, ftp, a, b)
  {
    var u := UploadOnce(s, record, files, ftp, a[0]);
    var h := HarvestUploads(u.1, u.2, u.3, ftp, a[1..]);
    var g := HarvestUploads(h.line, h.record, h.files, ftp, b);
    assert (a + b)[0] == a[0] && (a + b)[1..] == a[1..] + b;
    assert [u.0] + (h.uploads + g.uploads) == ([u.0] + h.uploads) + g.uploads;
  }

  /** The harvest as a loop: `whole` is the harvest of all of `found`, and
      the first i candidates have left the port at `s` with the outcomes
      `uploads`. */
  ghost predicate HarvestingAt(whole: HarvestLoop, s: Line, record: Option<Progress>, files: map<string, Bytes>, ftp: FtpSettings,
                               found: seq<string>, i: nat, uploads: seq<bool>)
    requires i <= |found|
  {
    var h := HarvestUploads(s, record, files, ftp, found[i..]);
    whole == h.(uploads := uploads + h.uploads)
  }

  /** One more candidate of the harvest loop. */
  lemma HarvestingStep(whole: HarvestLoop, s: Line, record: Option<Progress>, files: map<string, Bytes>, ftp: FtpSettings,
                       found: seq<string>, i: nat, uploads: seq<bool>,
                       ok: bool, s2: Line, record2: Option<Progress>, files2: map<string, Bytes>)
    requires i < |found| && HarvestingAt(whole, s, record, files, ftp, found, i, uploads)
    requires UploadOnce(s, record, files, ftp, found[i]) == (ok, s2, record2, files2)
    ensures HarvestingAt(whole, s2, record2, files2, ftp, found, i + 1, uploads + [ok])
  {
    assert found[i..][0] == found[i] && found[i..][1..] == found[i + 1..];
    var h := HarvestUploads(s2, record2, files2, ftp, found[i + 1..]);
    assert uploads + ([ok] + h.uploads) == (uploads + [ok]) + h.uploads;
  }

  /** The upload loop of startup_upload_phase: the pending archives in
      order, each on the port the previous upload left, skipping those no
      longer on the disk, until the port's clock is more than `limitMs`
      past `start` when an archive's turn comes. */
  function BootUpload(s: Line, record: Option<Progress>, files: map<string, Bytes>, ftp: FtpSettings,
                      todo: seq<string>, start: int, limitMs: int): UploadLoop
    decreases |todo|
  {
    if todo == [] || s.clock - start > limitMs then UploadLoop(0, [], [], s, record, files)
    else
      var path := todo[0];
      if path !in files then
        var b := BootUpload(s, record, files, ftp, todo[1..], start, limitMs);
        b.(reached := b.reached + 1)
      else
        var u := UploadOnce(s, record, files, ftp, path);
        var b := BootUpload(u.1, u.2, u.3, ftp, todo[1..], start, limitMs);
        b.(reached := b.reached + 1, attempted := [path] + b.attempted, uploads := [u.0] + b.uploads)
  }

  /** The boot uploads stop early only at the timeout: an archive left
      unreached means the port's clock had passed the limit, and only
      archives on the disk are uploaded. */
  lemma {:induction false} BootUploadStops(s: Line, record: Option<Progress>, files: map<string, Bytes>, ftp: FtpSettings,
                                           todo: seq<string>, start: int, limitMs: int)
    ensures var b := BootUpload(s, record, files, ftp, todo, start, limitMs);
      b.reached <= |todo| && |b.uploads| == |b.attempted|
      && (b.reached < |todo| ==> b.line.clock - start > limitMs)
      && (b.attempted != [] ==> b.attempted[0] in todo && b.attempted[0] in files)
    decreases |todo|
  {
    if todo != [] && s.clock - start <= limitMs {
      var path := todo[0];
      if path !in files {
        BootUploadStops(s, record, files, ftp, todo[1..], start, limitMs);
        var b := BootUpload(s, record, files, ftp, todo[1..], start, limitMs);
        if b.attempted != [] {
          assert b.attempted[0] in todo[1..];
        }
      } else {
        var u := UploadOnce(s, record, files, ftp, path);
        BootUploadStops(u.1, u.2, u.3, ftp, todo[1..], start, limitMs);
      }
    }
  }

  /** BootUpload as a loop: `whole` is the run over all of `todo`, and the
      first i archives have left the port at `s`. */
  ghost predicate BootingAt(whole: UploadLoop, s: Line, record: Option<Progress>, files: map<string, Bytes>, ftp: FtpSettings,
                            todo: seq<string>, start: int, limitMs: int, i: nat, attempted: seq<string>, uploads: seq<bool>)
    requires i <= |todo|
  {
    var b := BootUpload(s, record, files, ftp, todo[i..], start, limitMs);
    whole == b.(reached := i + b.reached, attempted := attempted + b.attempted, uploads := uploads + b.uploads)
  }

  /** The boot loop at its timeout, or past the last archive, is done. */
  lemma BootingStop(whole: UploadLoop, s: Line, record: Option<Progress>, files: map<string, Bytes>, ftp: FtpSettings,
                    todo: seq<string>, start: int, limitMs: int, i: nat, attempted: seq<string>, uploads: seq<bool>)
    requires i <= |todo| && BootingAt(whole, s, record, files, ftp, todo, start, limitMs, i, attempted, uploads)
    requires i == |todo| || s.clock - start > limitMs
    ensures whole == UploadLoop(i, attempted, uploads, s, record, files)
  {
    if i == |todo| {
      assert todo[i..] == [];
    }
    assert attempted + [] == attempted && uploads + [] == uploads;
  }

  /** One more archive of the boot loop, uploaded when it is on the disk
      and skipped otherwise. */
  lemma BootingStep(whole: UploadLoop, s: Line, record: Option<Progress>, files: map<string, Bytes>, ftp: FtpSettings,
                    todo: seq<string>, start: int, limitMs: int, i: nat, attempted: seq<string>, uploads: seq<bool>,
                    ok: bool, s2: Line, record2: Option<Progress>, files2: map<string, Bytes>)
    requires i < |todo| && s.clock - start <= limitMs
    requires BootingAt(whole, s, record, files, ftp, todo, start, limitMs, i, attempted, uploads)
    requires todo[i] !in files ==> s2 == s && record2 == record && files2 == files
    requires todo[i] in files ==> UploadOnce(s, record, files, ftp, todo[i]) == (ok, s2, record2, files2)
    ensures todo[i] !in files ==> BootingAt(whole, s2, record2, files2, ftp, todo, start, limitMs, i + 1, attempted, uploads)
    ensures todo[i] in files ==>
      BootingAt(whole, s2, record2, files2, ftp, todo, start, limitMs, i + 1, attempted + [todo[i]], uploads + [ok])
  {
    assert todo[i..][0] == todo[i] && todo[i..][1..] == todo[i + 1..];
    var b := BootUpload(s2, record2, files2, ftp, todo[i + 1..], start, limitMs);
    assert attempted + ([todo[i]] + b.attempted) == (attempted + [todo[i]]) + b.attempted;
    assert uploads + ([ok] + b.uploads) == (uploads + [ok]) + b.uploads;
  }

  // ---------------------------------------------------------------------
  // The monitor
  // ---------------------------------------------------------------------

  /** The write tracking of the monitor loop. */
  datatype Tracking = Tracking(baseline: int, lastSeen: int, lastWrite: Option<int>, connected: bool)

  /** One poll of the monitor loop, given the UDC state, the write counter,
      the time (seconds) and the counter read again after a harvest:
      the new tracking, and whether the poll harvested. */
  function Step(t: Tracking, udc: string, current: int, now: int, quietWindowS: int, after: int): (Tracking, bool) {
    if udc == "configured" then
      var t1 := if !t.connected then Tracking(current, current, t.lastWrite, true) else t;
      var t2 := if current > t1.lastSeen then t1.(lastSeen := current, lastWrite := Some(now)) else t1;
      if t2.lastWrite.Some? && now - t2.lastWrite.value >= quietWindowS then
        (Tracking(after, after, None, false), true)
      else (t2, false)
    else if t.connected then
      (t.(lastWrite := None, connected := false), t.lastWrite.Some?)
    else (t.(connected := false), false)
  }

  /** While the host is attached, a harvest fires iff a write has been
      seen this session and the quiet window has passed since the last one;
      a write seen at this very poll counts as the last one. */
  lemma ConfiguredTrigger(t: Tracking, current: int, now: int, quietWindowS: int, after: int)
    ensures var seenBefore := if t.connected then t.lastSeen else current;
      var last := if current > seenBefore then Some(now) else t.lastWrite;
      (Step(t, "configured", current, now, quietWindowS, after).1
       <==> last.Some? && now - last.value >= quietWindowS)
  {
  }

  /** When the host goes away, a harvest fires iff it was attached and
      wrote something. */
  lemma DisconnectTrigger(t: Tracking, udc: string, current: int, now: int, quietWindowS: int, after: int)
    requires udc != "configured"
    ensures Step(t, udc, current, now, quietWindowS, after).1 <==> t.connected && t.lastWrite.Some?
    ensures !Step(t, udc, current, now, quietWindowS, after).0.connected
    ensures Step(t, udc, current, now, quietWindowS, after).0.lastWrite == (if t.connected then None else t.lastWrite)
  {
  }

  /** After a harvest the write time is cleared and the host counts as
      gone; a harvest at the quiet window restarts the counters from the
      counter read after it, one on disconnect keeps them. */
  lemma HarvestResets(t: Tracking, udc: string, current: int, now: int, quietWindowS: int, after: int)
    requires Step(t, udc, current, now, quietWindowS, after).1
    ensures var t' := Step(t, udc, current, now, quietWindowS, after).0;
      && t'.lastWrite == None && !t'.connected
      && (udc == "configured" ==> t'.baseline == after && t'.lastSeen == after)
      && (udc != "configured" ==> t'.baseline == t.baseline && t'.lastSeen == t.lastSeen)
  {
  }

  /** A write is recorded only when the counter went up, and it then
      becomes the last seen count; the first attached poll takes the
      counter as baseline. */
  lemma WriteDetection(t: Tracking, current: int, now: int, quietWindowS: int, after: int)
    requires !Step(t, "configured", current, now, quietWindowS, after).1
    ensures var t' := Step(t, "configured", current, now, quietWindowS, after).0;
      var seenBefore := if t.connected then t.lastSeen else current;
      && t'.connected
      && t'.baseline == (if t.connected then t.baseline else current)
      && (current > seenBefore ==> t'.lastSeen == current && t'.lastWrite == Some(now))
      && (current <= seenBefore ==> t'.lastSeen == seenBefore && t'.lastWrite == t.lastWrite)
      && t'.lastSeen >= seenBefore
  {
  }

  // ---------------------------------------------------------------------
  // The traces of a harvest and of a boot attempt
  // ---------------------------------------------------------------------

  /** The disk actions of harvest_and_upload: unload the gadget, mount
      (after clearing a stale mount), delete each file whose upload
      succeeded, unmount and load the gadget again; after a failed mount
      the gadget is loaded straight away. No umount status is checked. */
  function HarvestTrace(m: Mounting, candidates: seq<string>, uploads: seq<bool>): seq<Action>
    requires |candidates| == |uploads|
  {
    if m.mountOk then [UnloadGadget, Unmount(m.staleHeld), Mount(true)] + Removals(candidates, uploads) + [Unmount(m.finalHeld), LoadGadget]
    else [UnloadGadget, Unmount(m.staleHeld), Mount(false), LoadGadget]
  }

  /** The disk actions of one boot attempt (startup_upload_phase): mount,
      delete each uploaded archive, and unmount unless the attempt is to be
      retried. */
  function PhaseTrace(m: Mounting, attempted: seq<string>, uploads: seq<bool>, proceed: bool): seq<Action>
    requires |attempted| == |uploads|
  {
    if m.mountOk then [Unmount(m.staleHeld), Mount(true)] + Removals(attempted, uploads) + (if proceed then [Unmount(m.finalHeld)] else [])
    else [Unmount(m.staleHeld), Mount(false)]
  }

  /** No umount of the run left the disk mounted. */
  predicate NoneHeld(run: seq<Action>) {
    Unmount(true) !in run
  }

  lemma NoneHeldAppend(a: seq<Action>, b: seq<Action>)
    ensures NoneHeld(a + b) <==> NoneHeld(a) && NoneHeld(b)
  {
    assert Unmount(true) in a + b <==> Unmount(true) in a || Unmount(true) in b;
  }

  /** Deletions happen on the local mount and leave it as it is. */
  lemma {:induction false} RemovalsExclusive(d: Disk, paths: seq<string>, ok: seq<bool>)
    requires |paths| == |ok| && d.mounted && !d.gadget
    ensures Exclusive(d, Removals(paths, ok)) && After(d, Removals(paths, ok)) == d
    ensures NoneHeld(Removals(paths, ok))
    decreases |paths|
  {
    if paths != [] {
      var n := |paths| - 1;
      var last: seq<Action> := if ok[n] then [Remove(paths[n])] else [];
      RemovalsExclusive(d, paths[..n], ok[..n]);
      ExclusiveAppend(d, Removals(paths[..n], ok[..n]), last);
      NoneHeldAppend(Removals(paths[..n], ok[..n]), last);
    }
  }

  /** A harvest never mounts the disk while the host has it. It shares the
      disk exactly when it loads the gadget over a disk still mounted: the
      final umount left the mount in place, or, after a failed mount, the
      stale umount left in place a mount that was there before. It always
      ends with the gadget loaded, the disk mounted only in those cases. */
  lemma HarvestExclusive(d: Disk, m: Mounting, candidates: seq<string>, uploads: seq<bool>)
    requires |candidates| == |uploads|
    ensures Exclusive(d, HarvestTrace(m, candidates, uploads))
            <==> if m.mountOk then !m.finalHeld else !(d.mounted && m.staleHeld)
    ensures After(d, HarvestTrace(m, candidates, uploads))
            == Disk(true, if m.mountOk then m.finalHeld else d.mounted && m.staleHeld)
  {
    var d1 := Disk(false, d.mounted && m.staleHeld);
    ExclusiveCons(d, UnloadGadget, [Unmount(m.staleHeld), Mount(m.mountOk)] + if m.mountOk then [] else [LoadGadget]);
    if m.mountOk {
      var head := [UnloadGadget, Unmount(m.staleHeld), Mount(true)];
      var mid := Removals(candidates, uploads);
      var tail := [Unmount(m.finalHeld), LoadGadget];
      ExclusiveCons(d, UnloadGadget, [Unmount(m.staleHeld), Mount(true)]);
      ExclusiveCons(d.(gadget := false), Unmount(m.staleHeld), [Mount(true)]);
      ExclusiveCons(d1, Mount(true), []);
      assert Exclusive(d, head) && After(d, head) == Disk(false, true);
      RemovalsExclusive(Disk(false, true), candidates, uploads);
      ExclusiveAppend(d, head, mid);
      ExclusiveAppend(d, head + mid, tail);
      ExclusiveCons(Disk(false, true), Unmount(m.finalHeld), [LoadGadget]);
      ExclusiveCons(Disk(false, m.finalHeld), LoadGadget, []);
    } else {
      ExclusiveCons(d, UnloadGadget, [Unmount(m.staleHeld), Mount(false), LoadGadget]);
      ExclusiveCons(d.(gadget := false), Unmount(m.staleHeld), [Mount(false), LoadGadget]);
      ExclusiveCons(d1, Mount(false), [LoadGadget]);
      ExclusiveCons(d1, LoadGadget, []);
    }
  }

  /** From any state, `run` never shares the disk; it leaves the gadget
      loaded and the disk unmounted when `ends` holds, and the state as it
      was otherwise. */
  ghost predicate Keeps(run: seq<Action>, ends: bool) {
    forall d: Disk :: Exclusive(d, run) && After(d, run) == (if ends then Disk(true, false) else d)
  }

  /** `run` keeps the disk exclusive as `Keeps` says whenever none of its
      umounts left the disk mounted. */
  ghost predicate Safe(run: seq<Action>, ends: bool) {
    NoneHeld(run) ==> Keeps(run, ends)
  }

  lemma SafeNothing()
    ensures Safe([], false)
  {
  }

  lemma SafeAppend(run: seq<Action>, e1: bool, trace: seq<Action>, e2: bool)
    requires Safe(run, e1) && Safe(trace, e2)
    ensures Safe(run + trace, e1 || e2)
  {
    NoneHeldAppend(run, trace);
    if NoneHeld(run + trace) {
      forall d: Disk
        ensures Exclusive(d, run + trace) && After(d, run + trace) == (if e1 || e2 then Disk(true, false) else d)
      {
        ExclusiveAppend(d, run, trace);
      }
    }
  }

  /** A harvest whose umounts all worked never shares the disk, from any
      state, and gives it back to the host unmounted. */
  lemma HarvestKeeps(m: Mounting, candidates: seq<string>, uploads: seq<bool>)
    requires |candidates| == |uploads|
    ensures Safe(HarvestTrace(m, candidates, uploads), true)
  {
    var trace := HarvestTrace(m, candidates, uploads);
    if NoneHeld(trace) {
      if m.mountOk {
        var head := [UnloadGadget, Unmount(m.staleHeld), Mount(true)];
        RemovalsExclusive(Disk(false, true), candidates, uploads);
        NoneHeldAppend(head + Removals(candidates, uploads), [Unmount(m.finalHeld), LoadGadget]);
        assert Unmount(m.finalHeld) in [Unmount(m.finalHeld), LoadGadget];
      } else {
        assert Unmount(m.staleHeld) in trace;
      }
      forall d: Disk
        ensures Exclusive(d, trace) && After(d, trace) == Disk(true, false)
      {
        HarvestExclusive(d, m, candidates, uploads);
      }
    }
  }

  /** main as written: a harvest whose final umount leaves the disk mounted
      (for instance because it is busy) loads the gadget over the mounted
      disk, and the host and the Pi then share it. */
  lemma FailedUnmountShares(staleHeld: bool, candidates: seq<string>, uploads: seq<bool>)
    requires |candidates| == |uploads|
    ensures !Exclusive(Disk(true, false), HarvestTrace(Mounting(staleHeld, true, true), candidates, uploads))
    ensures After(Disk(true, false), HarvestTrace(Mounting(staleHeld, true, true), candidates, uploads)) == Disk(true, true)
  {
    HarvestExclusive(Disk(true, false), Mounting(staleHeld, true, true), candidates, uploads);
  }

  /** The harvest with the disk given back only once it is unmounted: the
      gadget is loaded again only when the final umount (or, after a failed
      mount, the stale umount) did not leave the disk mounted. */
  function GuardedHarvestTrace(m: Mounting, candidates: seq<string>, uploads: seq<bool>): seq<Action>
    requires |candidates| == |uploads|
  {
    if m.mountOk then
      [UnloadGadget, Unmount(m.staleHeld), Mount(true)] + Removals(candidates, uploads) + [Unmount(m.finalHeld)]
        + (if m.finalHeld then [] else [LoadGadget])
    else [UnloadGadget, Unmount(m.staleHeld), Mount(false)] + (if m.staleHeld then [] else [LoadGadget])
  }

  /** The guarded harvest never shares the disk, whatever its commands
      return and whatever the state before; it ends with the disk lent to
      the host and unmounted when the umount it relied on worked, and kept
      from the host otherwise. */
  lemma GuardedHarvestExclusive(d: Disk, m: Mounting, candidates: seq<string>, uploads: seq<bool>)
    requires |candidates| == |uploads|
    ensures Exclusive(d, GuardedHarvestTrace(m, candidates, uploads))
    ensures var e := After(d, GuardedHarvestTrace(m, candidates, uploads));
      !(e.gadget && e.mounted)
      && (e.gadget <==> if m.mountOk then !m.finalHeld else !m.staleHeld)
      && (e.gadget ==> e == Disk(true, false))
  {
    var head := [UnloadGadget, Unmount(m.staleHeld), Mount(m.mountOk)];
    TakeOver(d, m.staleHeld, m.mountOk);
    if m.mountOk {
      var mid := Removals(candidates, uploads);
      var tail := [Unmount(m.finalHeld)] + (if m.finalHeld then [] else [LoadGadget]);
      RemovalsExclusive(Disk(false, true), candidates, uploads);
      ExclusiveAppend(d, head, mid);
      GuardedGiveBack(m.finalHeld);
      ExclusiveAppend(d, head + mid, tail);
      assert GuardedHarvestTrace(m, candidates, uploads) == head + mid + tail;
    } else {
      var tail: seq<Action> := if m.staleHeld then [] else [LoadGadget];
      ExclusiveAppend(d, head, tail);
      ExclusiveCons(Disk(false, d.mounted && m.staleHeld), LoadGadget, []);
    }
  }

  /** Taking the disk from the host: unload the gadget, unmount what may
      still be mounted, and mount. */
  lemma TakeOver(d: Disk, staleHeld: bool, mountOk: bool)
    ensures Exclusive(d, [UnloadGadget, Unmount(staleHeld), Mount(mountOk)])
    ensures After(d, [UnloadGadget, Unmount(staleHeld), Mount(mountOk)]) == Disk(false, (d.mounted && staleHeld) || mountOk)
  {
    ExclusiveCons(d, UnloadGadget, [Unmount(staleHeld), Mount(mountOk)]);
    ExclusiveCons(d.(gadget := false), Unmount(staleHeld), [Mount(mountOk)]);
    ExclusiveCons(Disk(false, d.mounted && staleHeld), Mount(mountOk), []);
  }

  /** Giving a mounted disk back only once the umount worked. */
  lemma GuardedGiveBack(held: bool)
    ensures var tail := [Unmount(held)] + (if held then [] else [LoadGadget]);
      Exclusive(Disk(false, true), tail) && After(Disk(false, true), tail) == Disk(!held, held)
  {
    ExclusiveCons(Disk(false, true), Unmount(held), if held then [] else [LoadGadget]);
    ExclusiveCons(Disk(false, false), LoadGadget, []);
  }

  /** From any state with the gadget unloaded, `boot` never shares the
      disk and keeps the gadget unloaded; after an attempt (`last` is
      Some) the disk is mounted exactly as `last` says. */
  ghost predicate BootKeeps(boot: seq<Action>, last: Option<bool>) {
    forall d: Disk :: !d.gadget ==>
      Exclusive(d, boot) && After(d, boot) == (if last.None? then d else Disk(false, last.value))
  }

  /** `boot` is as `BootKeeps` says whenever none of its umounts left the
      disk mounted. */
  ghost predicate BootSafe(boot: seq<Action>, last: Option<bool>) {
    NoneHeld(boot) ==> BootKeeps(boot, last)
  }

  lemma BootAppend(boot: seq<Action>, l1: Option<bool>, trace: seq<Action>, mounted: bool)
    requires BootSafe(boot, l1) && BootSafe(trace, Some(mounted))
    ensures BootSafe(boot + trace, Some(mounted))
  {
    NoneHeldAppend(boot, trace);
    if NoneHeld(boot + trace) {
      forall d: Disk | !d.gadget
        ensures Exclusive(d, boot + trace) && After(d, boot + trace) == Disk(false, mounted)
      {
        ExclusiveAppend(d, boot, trace);
      }
    }
  }

  /** A boot attempt that starts with the gadget unloaded keeps it
      unloaded and never shares the disk. It leaves the disk mounted when
      the mount worked and either the attempt is to be retried or its
      umount left the mount in place; after a failed mount, only when the
      stale umount left a mount from before in place. */
  lemma PhaseExclusive(d: Disk, m: Mounting, attempted: seq<string>, uploads: seq<bool>, proceed: bool)
    requires |attempted| == |uploads| && !d.gadget
    ensures Exclusive(d, PhaseTrace(m, attempted, uploads, proceed))
    ensures After(d, PhaseTrace(m, attempted, uploads, proceed))
            == Disk(false, if m.mountOk then !proceed || m.finalHeld else d.mounted && m.staleHeld)
  {
    var d1 := d.(mounted := d.mounted && m.staleHeld);
    if m.mountOk {
      var head := [Unmount(m.staleHeld), Mount(true)];
      var mid := Removals(attempted, uploads);
      var tail: seq<Action> := if proceed then [Unmount(m.finalHeld)] else [];
      ExclusiveCons(d, Unmount(m.staleHeld), [Mount(true)]);
      ExclusiveCons(d1, Mount(true), []);
      assert Exclusive(d, head) && After(d, head) == Disk(false, true);
      RemovalsExclusive(Disk(false, true), attempted, uploads);
      ExclusiveAppend(d, head, mid);
      ExclusiveAppend(d, head + mid, tail);
      if proceed {
        ExclusiveCons(Disk(false, true), Unmount(m.finalHeld), []);
      }
    } else {
      ExclusiveCons(d, Unmount(m.staleHeld), [Mount(false)]);
      ExclusiveCons(d1, Mount(false), []);
    }
  }

  /** A boot attempt whose umounts worked leaves the disk mounted exactly
      when the mount worked and the attempt is to be retried. */
  lemma PhaseKeeps(m: Mounting, attempted: seq<string>, uploads: seq<bool>, proceed: bool)
    requires |attempted| == |uploads|
    ensures BootSafe(PhaseTrace(m, attempted, uploads, proceed), Some(m.mountOk && !proceed))
  {
    var trace := PhaseTrace(m, attempted, uploads, proceed);
    if NoneHeld(trace) {
      assert Unmount(m.staleHeld) in trace;
      if m.mountOk && proceed {
        NoneHeldAppend([Unmount(m.staleHeld), Mount(true)] + Removals(attempted, uploads), [Unmount(m.finalHeld)]);
      }
      forall d: Disk | !d.gadget
        ensures Exclusive(d, trace) && After(d, trace) == Disk(false, m.mountOk && !proceed)
      {
        PhaseExclusive(d, m, attempted, uploads, proceed);
      }
    }
  }

  /** The start of the service: unload the gadget, boot, unmount unless
      the boot loop ended on an attempt that went on, load the gadget.
      When no umount left the disk mounted, the disk is never shared and
      ends lent to the host. */
  lemma StartKeeps(boot: seq<Action>, attempts: nat, proceeded: bool, settleHeld: bool)
    requires BootSafe(boot, if attempts == 0 then None else Some(!proceeded))
    requires proceeded ==> attempts >= 1
    ensures Safe([UnloadGadget] + boot + (if !proceeded then [Unmount(settleHeld)] else []) + [LoadGadget], true)
  {
    var settle: seq<Action> := if !proceeded then [Unmount(settleHeld)] else [];
    var run := [UnloadGadget] + boot + settle + [LoadGadget];
    if NoneHeld(run) {
      NoneHeldAppend([UnloadGadget] + boot + settle, [LoadGadget]);
      NoneHeldAppend([UnloadGadget] + boot, settle);
      NoneHeldAppend([UnloadGadget], boot);
      assert !proceeded ==> Unmount(settleHeld) in settle;
      forall d: Disk
        ensures Exclusive(d, run) && After(d, run) == Disk(true, false)
      {
        var d1 := Apply(d, UnloadGadget);
        assert !d1.gadget;
        ExclusiveCons(d, UnloadGadget, boot + settle + [LoadGadget]);
        ExclusiveAppend(d1, boot, settle + [LoadGadget]);
        var d2 := After(d1, boot);
        ExclusiveAppend(d2, settle, [LoadGadget]);
        if !proceeded {
          ExclusiveCons(d2, Unmount(settleHeld), []);
        }
        ExclusiveCons(After(d2, settle), LoadGadget, []);
        assert run == [UnloadGadget] + (boot + (settle + [LoadGadget]));
      }
    }
  }

  /** When the boot loop gives up after an attempt that kept the disk
      mounted, loading the gadget straight away, as main does, shares the
      disk with the host. */
  lemma MainLoadsMountedDisk(d: Disk, boot: seq<Action>)
    requires After(d, boot).mounted
    ensures !Exclusive(d, boot + [LoadGadget])
    ensures Exclusive(d, boot) ==> Exclusive(d, boot + [Unmount(false), LoadGadget])
  {
    ExclusiveAppend(d, boot, [LoadGadget]);
    ExclusiveAppend(d, boot, [Unmount(false), LoadGadget]);
  }

  /** The first boot attempt mounts the disk and the network does not come
      up in time: the service as written then loads the gadget over the
      mounted disk, although every umount worked. */
  lemma BootRetryThenLoad()
    ensures var boot := [UnloadGadget] + PhaseTrace(Mounting(false, true, false), [], [], false);
      NoneHeld(boot) && Exclusive(Disk(true, false), boot) && !Exclusive(Disk(true, false), boot + [LoadGadget])
  {
    var boot := [UnloadGadget] + PhaseTrace(Mounting(false, true, false), [], [], false);
    assert boot == [UnloadGadget] + [Unmount(false), Mount(true)];
    PhaseExclusive(Disk(false, false), Mounting(false, true, false), [], [], false);
    ExclusiveCons(Disk(true, false), UnloadGadget, [Unmount(false), Mount(true)]);
    MainLoadsMountedDisk(Disk(true, false), boot);
  }

  /** The command close_bearer sends. */
  const CloseBearerCommand: string := "AT+SAPBR=0,1"

  // ---------------------------------------------------------------------
  // The UDC state
  // ---------------------------------------------------------------------

  /** get_udc_state: the stripped state file of the first controller
      listed under /sys/class/udc, or "unknown" when there is none or it
      cannot be read. */
  function UdcState(udcDirs: Option<seq<string>>, sysfs: map<string, string>): (r: string)
    ensures udcDirs.None? || udcDirs.value == [] ==> r == "unknown"
    ensures udcDirs.Some? && udcDirs.value != [] ==>
      var path := "/sys/class/udc/" + udcDirs.value[0] + "/state";
      r == if path in sysfs then Strip(sysfs[path]) else "unknown"
  {
    if udcDirs.None? || udcDirs.value == [] then "unknown"
    else
      var path := "/sys/class/udc/" + udcDirs.value[0] + "/state";
      if path in sysfs then Strip(sysfs[path]) else "unknown"
  }

  /** The state file of the first controller, padded with white space
      around a state word, gives that word. */
  lemma UdcStatePadded(first: string, rest: seq<string>, sysfs: map<string, string>,
                       lead: string, state: string, trail: string)
    requires AllIn(lead, Whitespace) && AllIn(trail, Whitespace)
    requires state != [] && state[0] !in Whitespace && state[|state| - 1] !in Whitespace
    requires "/sys/class/udc/" + first + "/state" in sysfs
    requires sysfs["/sys/class/udc/" + first + "/state"] == lead + state + trail
    ensures UdcState(Some([first] + rest), sysfs) == state
  {
    StripPadded(lead, state, trail);
  }

  /** What one poll of the monitor loop reads: the controller listing, the
      sysfs files before, and the sysfs files after a harvest; and what a
      harvest at this poll would find: the outcomes of its umounts and its
      mount, and the disk's tree. */
  datatype Reading = Reading(udcDirs: Option<seq<string>>, sysfs: map<string, string>,
                             sysfsAfter: map<string, string>, mounting: Mounting, listing: seq<Entry>)

  // ---------------------------------------------------------------------
  // The service
  // ---------------------------------------------------------------------

  class Host {
    const cfg: Config
    const modem: Sim7000
    /** Everything done to the disk, in order. */
    var actions: seq<Action>
    /** The files on the disk. */
    var files: map<string, Bytes>

    constructor (cfg: Config, modem: Sim7000, files: map<string, Bytes>)
      ensures this.cfg == cfg && this.modem == modem && this.files == files && actions == []
    {
      this.cfg := cfg;
      this.modem := modem;
      this.files := files;
      actions := [];
    }

    function FileAt(path: string): Option<Bytes>
      reads this
    {
      Stored(files, path)
    }

    /** unmount_usb_disk: sync, half a second's pause, umount, whose status
        is not looked at; `held` says whether the mount survived it. */
    method UnmountDisk(held: bool)
      modifies this, modem
      ensures actions == old(actions) + [Unmount(held)] && files == old(files)
      ensures modem.clock == old(modem.clock) + 500
      ensures modem.log == old(modem.log) && modem.script == old(modem.script) && modem.progress == old(modem.progress)
    {
      actions := actions + [Unmount(held)];
      modem.clock := modem.clock + 500;
    }

    /** setup_network with the configured APN: whether the bearer came up,
        as the modem's replies decide. */
    method ConnectNetwork() returns (up: bool)
      modifies modem
      ensures var run := NetworkSetup(old(modem.Now()));
        (up <==> run.r.Success?) && modem.Now() == run.line
      ensures modem.clock >= old(modem.clock) && modem.progress == old(modem.progress)
    {
      ghost var s0 := modem.Now();
      var r, polls := modem.SetupNetwork(cfg.apn);
      up := r.Success?;
      NetworkLater(s0);
    }

    /** upload_ftp for one file, deleted iff the upload succeeded, as the
        modem's replies decide; a success also leaves no progress record
        behind. */
    method UploadOne(path: string) returns (ok: bool)
      modifies this, modem
      ensures modem.clock >= old(modem.clock)
      ensures ok == FtpUpload(old(modem.Now()), old(modem.progress), modem.chunkSize, path, old(FileAt(path)), 3, 5).r.Success?
      ensures ok ==> path in old(files) && files == old(files) - {path} && actions == old(actions) + [Remove(path)]
                     && modem.progress == None
      ensures !ok ==> files == old(files) && actions == old(actions)
      ensures UploadOnce(old(modem.Now()), old(modem.progress), old(files), FtpSettings(modem.chunkSize, 3, 5), path)
                == (ok, modem.Now(), modem.progress, files)
    {
      ghost var s0 := modem.Now();
      var r, resumeFrom, sent, maxChunk, acked :=
        modem.UploadFtp(cfg.server, cfg.port, cfg.user, cfg.password, path, FileAt(path), cfg.remotePath);
      UploadLater(s0, old(modem.progress), modem.chunkSize, path, old(FileAt(path)), 3, 5);
      ok := r.Success?;
      if ok {
        files := files - {path};
        actions := actions + [Remove(path)];
      }
    }
  
    /** harvest_and_upload: take the disk from the host, upload every file
        the scan finds, deleting each one right after its upload succeeded,
        and give the disk back. Without files the modem is not touched;
        without a network nothing is uploaded. The result is true iff every
        upload succeeded. `m` gives the outcomes of the umounts and the
        mount. */
    method HarvestAndUpload(m: Mounting, listing: seq<Entry>)
      returns (ok: bool, ghost candidates: seq<string>, ghost network: bool, ghost uploads: seq<bool>)
      modifies this, modem
      ensures modem.clock >= old(modem.clock)
      ensures candidates == Scan(cfg.mountPoint, listing) && |uploads| == |candidates|
      ensures actions == old(actions) + HarvestTrace(m, candidates, uploads)
      ensures files == old(files) - Removed(candidates, uploads)
      ensures ok <==> m.mountOk && AllOk(uploads)
      ensures Removed(candidates, uploads) <= old(files).Keys && (!network ==> NoneOk(uploads))
      ensures m.mountOk && candidates != [] ==>
        (network <==> NetworkSetup(Sleep(old(modem.Now()), 1000)).r.Success?)
      ensures network ==> m.mountOk && candidates != [] && modem.log != [] && modem.log[|modem.log| - 1] == Command(CloseBearerCommand)
      ensures !m.mountOk || candidates == [] ==> !network && modem.log == old(modem.log) && modem.progress == old(modem.progress)
      ensures network ==> uploads == HarvestUploads(NetworkSetup(Sleep(old(modem.Now()), 1000)).line, old(modem.progress), old(files),
                                                    FtpSettings(modem.chunkSize, 3, 5), candidates).uploads
    {
      var found := Scan(cfg.mountPoint, listing);
      candidates := found;
      TakeDisk(m);
      if !m.mountOk {
        actions := actions + [LoadGadget];
        ok, network, uploads := false, false, seq(|found|, _ => false);
        NoSuccessNoRemoval(found, uploads);
        return;
      }
      ok, network, uploads := HarvestMounted(found, m.finalHeld);
      Associate4(old(actions), [UnloadGadget, Unmount(m.staleHeld), Mount(true)], Removals(found, uploads), [Unmount(m.finalHeld), LoadGadget]);
      Associate3(old(actions), [UnloadGadget, Unmount(m.staleHeld), Mount(true)], Removals(found, uploads));
    }

    /** Steps 1 and 2 of harvest_and_upload: unload the gadget, a second's
        pause, clear a stale mount and mount the disk. */
    method TakeDisk(m: Mounting)
      modifies this, modem
      ensures actions == old(actions) + [UnloadGadget, Unmount(m.staleHeld), Mount(m.mountOk)] && files == old(files)
      ensures modem.Now() == Sleep(old(modem.Now()), 1000)
      ensures modem.log == old(modem.log) && modem.progress == old(modem.progress)
    {
      modem.clock := modem.clock + 1000;
      actions := actions + [UnloadGadget, Unmount(m.staleHeld), Mount(m.mountOk)];
    }

    /** Steps 3 to 7 of harvest_and_upload, once the disk is mounted. */
    method HarvestMounted(found: seq<string>, finalHeld: bool) returns (ok: bool, ghost network: bool, ghost uploads: seq<bool>)
      modifies this, modem
      ensures modem.clock >= old(modem.clock)
      ensures |uploads| == |found|
      ensures actions == old(actions) + Removals(found, uploads) + [Unmount(finalHeld), LoadGadget]
      ensures files == old(files) - Removed(found, uploads)
      ensures ok <==> AllOk(uploads)
      ensures Removed(found, uploads) <= old(files).Keys && (!network ==> NoneOk(uploads))
      ensures found != [] ==> (network <==> NetworkSetup(old(modem.Now())).r.Success?)
      ensures network ==> found != [] && modem.log != [] && modem.log[|modem.log| - 1] == Command(CloseBearerCommand)
      ensures found == [] ==> !network && modem.log == old(modem.log) && modem.progress == old(modem.progress)
      ensures network ==> uploads == HarvestUploads(NetworkSetup(old(modem.Now())).line, old(modem.progress), old(files), FtpSettings(modem.chunkSize, 3, 5), found).uploads
    {
      if found == [] {
        ok, network, uploads := true, false, [];
      } else {
        ok, network, uploads := UploadCandidates(found);
      }
      UnmountDisk(finalHeld);
      actions := actions + [LoadGadget];
    }

    /** Steps 4 to 6 of harvest_and_upload: bring the network up, upload
        the candidates, close the bearer. Without a network nothing is
        uploaded and the result is false. */
    method UploadCandidates(found: seq<string>) returns (ok: bool, ghost network: bool, ghost uploads: seq<bool>)
      requires found != []
      modifies this, modem
      ensures modem.clock >= old(modem.clock)
      ensures |uploads| == |found|
      ensures actions == old(actions) + Removals(found, uploads)
      ensures files == old(files) - Removed(found, uploads)
      ensures ok <==> AllOk(uploads)
      ensures network <==> NetworkSetup(old(modem.Now())).r.Success?
      ensures Removed(found, uploads) <= old(files).Keys && (!network ==> NoneOk(uploads))
      ensures network ==> modem.log != [] && modem.log[|modem.log| - 1] == Command(CloseBearerCommand)
      ensures network ==> uploads == HarvestUploads(NetworkSetup(old(modem.Now())).line, old(modem.progress), old(files), FtpSettings(modem.chunkSize, 3, 5), found).uploads
    {
      var up := ConnectNetwork();
      if !up {
        ok, network, uploads := false, false, seq(|found|, _ => false);
        NoSuccessNoRemoval(found, uploads);
        assert !uploads[0];
        return;
      }
      ok, uploads := UploadAll(found);
      modem.CloseBearer();
      network := true;
    }

    /** The upload loop of harvest_and_upload: every candidate in order,
        a failure not stopping the others. */
    method UploadAll(found: seq<string>) returns (ok: bool, ghost uploads: seq<bool>)
      modifies this, modem
      ensures modem.clock >= old(modem.clock)
      ensures |uploads| == |found|
      ensures actions == old(actions) + Removals(found, uploads)
      ensures files == old(files) - Removed(found, uploads)
      ensures Removed(found, uploads) <= old(files).Keys
      ensures ok <==> AllOk(uploads)
      ensures var h := HarvestUploads(old(modem.Now()), old(modem.progress), old(files), FtpSettings(modem.chunkSize, 3, 5), found);
        uploads == h.uploads && modem.Now() == h.line && modem.progress == h.record
    {
      ok, uploads := true, [];
      RunStart(files, actions);
      ghost var whole := HarvestUploads(modem.Now(), modem.progress, files, FtpSettings(modem.chunkSize, 3, 5), found);
      assert found[0..] == found && found[..0] == [];
      var i := 0;
      while i < |found|
        invariant 0 <= i <= |found| && |uploads| == i
        invariant HarvestingAt(whole, modem.Now(), modem.progress, files, FtpSettings(modem.chunkSize, 3, 5), found, i, uploads)
        invariant actions == old(actions) + Removals(found[..i], uploads)
        invariant files == old(files) - Removed(found[..i], uploads)
        invariant Removed(found[..i], uploads) <= old(files).Keys
        invariant ok <==> AllOk(uploads)
        invariant modem.clock >= old(modem.clock)
      {
        ghost var s, record, before := modem.Now(), modem.progress, files;
        var done := UploadOne(found[i]);
        HarvestingStep(whole, s, record, before, FtpSettings(modem.chunkSize, 3, 5), found, i, uploads, done, modem.Now(), modem.progress, files);
        PrefixSnoc(found, i);
        RemovalsSnoc(found[..i], uploads, found[i], done);
        Associate3(old(actions), Removals(found[..i], uploads), if done then [Remove(found[i])] else []);
        RemovedSnocFiles(old(files), found[..i], uploads, found[i], done);
        AllOkSnoc(uploads, done);
        uploads := uploads + [done];
        ok := ok && done;
        i := i + 1;
      }
      assert found[..i] == found && found[i..] == [];
    }

    /** startup_upload_phase: mount the disk and upload the outbox's
        archives, each one deleted right after its upload succeeded. The
        phase is to be retried (false, disk left mounted) only when the
        network, as the modem's replies decide, fails before the boot
        timeout has passed; otherwise the disk is unmounted and the boot
        goes on. `m` gives the outcomes of the umounts and the mount. */
    method StartupUploadPhase(m: Mounting, outbox: Option<seq<string>>)
      returns (proceed: bool, ghost pending: seq<string>, ghost network: bool, ghost elapsed: int,
               ghost reached: nat, ghost attempted: seq<string>, ghost uploads: seq<bool>)
      requires outbox.Some? ==> Distinct(outbox.value)
      modifies this, modem
      ensures modem.clock >= old(modem.clock)
      ensures pending == PendingUploads(cfg.outboxDir, outbox)
      ensures |uploads| == |attempted| && actions == old(actions) + PhaseTrace(m, attempted, uploads, proceed)
      ensures files == old(files) - Removed(attempted, uploads)
      ensures m.mountOk && pending != [] ==> (network <==> NetworkSetup(old(modem.Now())).r.Success?)
      ensures !proceed <==> m.mountOk && pending != [] && !network && elapsed < cfg.bootUploadTimeoutS * 1000
      ensures m.mountOk && pending != [] && !network ==>
        attempted == [] && elapsed == NetworkSetup(old(modem.Now())).line.clock - old(modem.clock)
        && modem.clock == old(modem.clock) + elapsed + (if proceed then 500 else 0)
      ensures network ==> m.mountOk && reached <= |pending| && attempted == Present(pending[..reached], old(files))
      ensures network && reached < |pending| ==> modem.clock - old(modem.clock) > cfg.bootUploadTimeoutS * 1000
      ensures !m.mountOk || pending == [] ==> !network && attempted == [] && modem.log == old(modem.log)
      ensures network ==>
        var b := BootUpload(NetworkSetup(old(modem.Now())).line, old(modem.progress), old(files),
                          FtpSettings(modem.chunkSize, 3, 5), pending, old(modem.clock), cfg.bootUploadTimeoutS * 1000);
        reached == b.reached && attempted == b.attempted && uploads == b.uploads
    {
      var todo := PendingUploads(cfg.outboxDir, outbox);
      pending := todo;
      actions := actions + [Unmount(m.staleHeld), Mount(m.mountOk)];
      if !m.mountOk {
        proceed, network, elapsed, reached, attempted, uploads := true, false, 0, 0, [], [];
        RunStart(files, actions);
        return;
      }
      if outbox.Some? {
        ArchivesDistinct(cfg.outboxDir, outbox.value);
      }
      proceed, network, elapsed, reached, attempted, uploads := PhaseMounted(todo, m.finalHeld);
      Associate4(old(actions), [Unmount(m.staleHeld), Mount(true)], Removals(attempted, uploads),
                 if proceed then [Unmount(m.finalHeld)] else []);
    }

    /** startup_upload_phase once the disk is mounted. */
    method PhaseMounted(todo: seq<string>, finalHeld: bool)
      returns (proceed: bool, ghost network: bool, ghost elapsed: int,
               ghost reached: nat, ghost attempted: seq<string>, ghost uploads: seq<bool>)
      requires Distinct(todo)
      modifies this, modem
      ensures modem.clock >= old(modem.clock)
      ensures |uploads| == |attempted|
      ensures actions == old(actions) + Removals(attempted, uploads) + (if proceed then [Unmount(finalHeld)] else [])
      ensures files == old(files) - Removed(attempted, uploads)
      ensures todo != [] ==> (network <==> NetworkSetup(old(modem.Now())).r.Success?)
      ensures !proceed <==> todo != [] && !network && elapsed < cfg.bootUploadTimeoutS * 1000
      ensures todo != [] && !network ==>
        attempted == [] && elapsed == NetworkSetup(old(modem.Now())).line.clock - old(modem.clock)
        && modem.clock == old(modem.clock) + elapsed + (if proceed then 500 else 0)
      ensures network ==> reached <= |todo| && attempted == Present(todo[..reached], old(files))
      ensures network && reached < |todo| ==> modem.clock - old(modem.clock) > cfg.bootUploadTimeoutS * 1000
      ensures todo == [] ==> !network && attempted == [] && modem.log == old(modem.log)
      ensures network ==>
        var b := BootUpload(NetworkSetup(old(modem.Now())).line, old(modem.progress), old(files),
                          FtpSettings(modem.chunkSize, 3, 5), todo, old(modem.clock), cfg.bootUploadTimeoutS * 1000);
        reached == b.reached && attempted == b.attempted && uploads == b.uploads
    {
      if todo == [] {
        proceed, network, elapsed, reached, attempted, uploads := true, false, 0, 0, [], [];
        RunStart(files, actions);
        UnmountDisk(finalHeld);
        return;
      }
      proceed, network, elapsed, reached, attempted, uploads := BootUploads(todo, finalHeld);
    }

    /** The network and upload part of startup_upload_phase, timed from
        its start: the phase is retried exactly when the network setup the
        modem's replies decide fails within the boot timeout. */
    method BootUploads(todo: seq<string>, finalHeld: bool)
      returns (proceed: bool, ghost network: bool, ghost elapsed: int,
               ghost reached: nat, ghost attempted: seq<string>, ghost uploads: seq<bool>)
      requires Distinct(todo)
      modifies this, modem
      ensures modem.clock >= old(modem.clock)
      ensures |uploads| == |attempted|
      ensures actions == old(actions) + Removals(attempted, uploads) + (if proceed then [Unmount(finalHeld)] else [])
      ensures files == old(files) - Removed(attempted, uploads)
      ensures network <==> NetworkSetup(old(modem.Now())).r.Success?
      ensures !proceed <==> !network && elapsed < cfg.bootUploadTimeoutS * 1000
      ensures !network ==>
        attempted == [] && elapsed == NetworkSetup(old(modem.Now())).line.clock - old(modem.clock)
        && modem.clock == old(modem.clock) + elapsed + (if proceed then 500 else 0)
      ensures network ==> reached <= |todo| && attempted == Present(todo[..reached], old(files))
      ensures network && reached < |todo| ==> modem.clock - old(modem.clock) > cfg.bootUploadTimeoutS * 1000
      ensures network ==>
        var b := BootUpload(NetworkSetup(old(modem.Now())).line, old(modem.progress), old(files),
                          FtpSettings(modem.chunkSize, 3, 5), todo, old(modem.clock), cfg.bootUploadTimeoutS * 1000);
        reached == b.reached && attempted == b.attempted && uploads == b.uploads
    {
      network, elapsed, reached, attempted, uploads := false, 0, 0, [], [];
      RunStart(files, actions);
      var start := modem.clock;
      var up := ConnectNetwork();
      if !up {
        var spent := modem.clock - start;
        elapsed := spent;
        if spent < cfg.bootUploadTimeoutS * 1000 {
          proceed := false;
          return;
        }
        UnmountDisk(finalHeld);
        proceed := true;
        return;
      }
      network := true;
      reached, attempted, uploads := UploadPending(todo, start);
      modem.CloseBearer();
      UnmountDisk(finalHeld);
      proceed := true;
    }

    /** The upload loop of startup_upload_phase: the pending archives in
        order, skipping those no longer on the disk, until the boot timeout
        has passed since `start`. */
    method UploadPending(todo: seq<string>, start: int)
      returns (ghost reached: nat, ghost attempted: seq<string>, ghost uploads: seq<bool>)
      requires Distinct(todo) && modem.clock >= start
      modifies this, modem
      ensures modem.clock >= old(modem.clock)
      ensures |uploads| == |attempted| && reached <= |todo|
      ensures attempted == Present(todo[..reached], old(files))
      ensures actions == old(actions) + Removals(attempted, uploads)
      ensures files == old(files) - Removed(attempted, uploads)
      ensures reached < |todo| ==> modem.clock - start > cfg.bootUploadTimeoutS * 1000
      ensures var b := BootUpload(old(modem.Now()), old(modem.progress), old(files), FtpSettings(modem.chunkSize, 3, 5),
                                  todo, start, cfg.bootUploadTimeoutS * 1000);
        reached == b.reached && attempted == b.attempted && uploads == b.uploads
        && modem.Now() == b.line && modem.progress == b.record
    {
      attempted, uploads := [], [];
      RunStart(files, actions);
      ghost var limit := cfg.bootUploadTimeoutS * 1000;
      ghost var whole := BootUpload(modem.Now(), modem.progress, files, FtpSettings(modem.chunkSize, 3, 5), todo, start, limit);
      assert todo[0..] == todo;
      var i := 0;
      while i < |todo|
        invariant 0 <= i <= |todo| && |uploads| == |attempted|
        invariant attempted == Present(todo[..i], old(files))
        invariant actions == old(actions) + Removals(attempted, uploads)
        invariant files == old(files) - Removed(attempted, uploads)
        invariant modem.clock >= old(modem.clock)
        invariant BootingAt(whole, modem.Now(), modem.progress, files, FtpSettings(modem.chunkSize, 3, 5), todo, start, limit, i, attempted, uploads)
      {
        if modem.clock - start > cfg.bootUploadTimeoutS * 1000 {
          break;
        }
        attempted, uploads := PendingNext(todo, i, start, old(files), old(actions), whole, attempted, uploads);
        i := i + 1;
      }
      BootingStop(whole, modem.Now(), modem.progress, files, FtpSettings(modem.chunkSize, 3, 5), todo, start, limit, i, attempted, uploads);
      reached := i;
    }

    /** One round of the boot upload loop, before the timeout: the next
        archive is uploaded if it is still on the disk and skipped
        otherwise. */
    method PendingNext(todo: seq<string>, i: nat, start: int, ghost f0: map<string, Bytes>, ghost a0: seq<Action>,
                       ghost whole: UploadLoop, ghost attempted: seq<string>, ghost uploads: seq<bool>)
      returns (ghost attempted2: seq<string>, ghost uploads2: seq<bool>)
      requires Distinct(todo) && i < |todo| && |uploads| == |attempted|
      requires modem.clock - start <= cfg.bootUploadTimeoutS * 1000
      requires attempted == Present(todo[..i], f0)
      requires actions == a0 + Removals(attempted, uploads) && files == f0 - Removed(attempted, uploads)
      requires BootingAt(whole, modem.Now(), modem.progress, files, FtpSettings(modem.chunkSize, 3, 5), todo, start,
                         cfg.bootUploadTimeoutS * 1000, i, attempted, uploads)
      modifies this, modem
      ensures modem.clock >= old(modem.clock) && |uploads2| == |attempted2|
      ensures attempted2 == Present(todo[..i + 1], f0)
      ensures actions == a0 + Removals(attempted2, uploads2) && files == f0 - Removed(attempted2, uploads2)
      ensures BootingAt(whole, modem.Now(), modem.progress, files, FtpSettings(modem.chunkSize, 3, 5), todo, start,
                        cfg.bootUploadTimeoutS * 1000, i + 1, attempted2, uploads2)
    {
      var path := todo[i];
      NotYetRemoved(todo, i, f0, attempted, uploads);
      PrefixSnoc(todo, i);
      PresentSnoc(todo[..i], f0, path);
      ghost var s, record, before := modem.Now(), modem.progress, files;
      attempted2, uploads2 := attempted, uploads;
      if path in files {
        var done := UploadOne(path);
        BootingStep(whole, s, record, before, FtpSettings(modem.chunkSize, 3, 5), todo, start, cfg.bootUploadTimeoutS * 1000, i,
                    attempted, uploads, done, modem.Now(), modem.progress, files);
        RemovalsSnoc(attempted, uploads, path, done);
        RemovedSnocFiles(f0, attempted, uploads, path, done);
        attempted2, uploads2 := attempted + [path], uploads + [done];
      } else {
        BootingStep(whole, s, record, before, FtpSettings(modem.chunkSize, 3, 5), todo, start, cfg.bootUploadTimeoutS * 1000, i,
                    attempted, uploads, false, s, record, before);
      }
    }
  
    /** The boot loop of main: boot attempts ten seconds apart until one
        says to go on or the boot timeout has passed since the loop began;
        `mounts(k)` gives the outcomes of the k-th attempt's umounts and
        mount. From any state with the gadget unloaded, when no umount left
        the disk mounted, the attempts never share the disk; the loop then
        leaves it mounted exactly when it gave up after an attempt that was
        to be retried. */
    method BootPhase(mounts: nat -> Mounting, outbox: Option<seq<string>>)
      returns (proceeded: bool, attempts: nat, ghost boot: seq<Action>)
      requires outbox.Some? ==> Distinct(outbox.value)
      modifies this, modem
      ensures modem.clock >= old(modem.clock)
      ensures actions == old(actions) + boot
      ensures proceeded ==> attempts >= 1
      ensures !proceeded ==> modem.clock - old(modem.clock) >= cfg.bootUploadTimeoutS * 1000
      ensures BootSafe(boot, if attempts == 0 then None else Some(!proceeded))
    {
      var bootStart := modem.clock;
      proceeded, attempts, boot := false, 0, [];
      while modem.clock - bootStart < cfg.bootUploadTimeoutS * 1000
        invariant modem.clock >= bootStart && !proceeded
        invariant actions == old(actions) + boot
        invariant BootSafe(boot, if attempts == 0 then None else Some(true))
        decreases bootStart + cfg.bootUploadTimeoutS * 1000 - modem.clock
      {
        var go, trace := Attempt(mounts(attempts), outbox);
        BootAppend(boot, if attempts == 0 then None else Some(true), trace, !go);
        boot, attempts := boot + trace, attempts + 1;
        if go {
          proceeded := true;
          break;
        }
        modem.clock := modem.clock + 10000;
      }
    }

    /** One boot attempt, as the boot loop sees it. */
    method Attempt(m: Mounting, outbox: Option<seq<string>>) returns (go: bool, ghost trace: seq<Action>)
      requires outbox.Some? ==> Distinct(outbox.value)
      modifies this, modem
      ensures modem.clock >= old(modem.clock)
      ensures actions == old(actions) + trace && BootSafe(trace, Some(!go))
    {
      var proceed, pending, network, elapsed, reached, attempted, uploads := StartupUploadPhase(m, outbox);
      go := proceed;
      trace := PhaseTrace(m, attempted, uploads, go);
      PhaseKeeps(m, attempted, uploads, go);
      assert m.mountOk && !go <==> !go;
    }

    /** One pass of the monitor loop of main over its tracking `t`: read
        the controller state and the write counter, track writes while the
        host is attached, and harvest once the quiet window has passed
        after the last write, or when the host goes away after writing;
        then sleep for the poll interval. Times are milliseconds. */
    method Poll(t: Tracking, r: Reading) returns (next: Tracking, harvested: bool, ghost uploads: seq<bool>)
      modifies this, modem
      ensures var udc := UdcState(r.udcDirs, r.sysfs);
        var current := WriteSectors(cfg.diskPath, r.sysfs);
        var after := WriteSectors(cfg.diskPath, r.sysfsAfter);
        (next, harvested) == Step(t, udc, current, old(modem.clock), cfg.quietWindowS * 1000, after)
      ensures modem.clock >= old(modem.clock) + cfg.pollIntervalS * 1000
      ensures !harvested ==> actions == old(actions) && files == old(files)
      ensures harvested ==>
        (&& |uploads| == |Scan(cfg.mountPoint, r.listing)|
         && actions == old(actions) + HarvestTrace(r.mounting, Scan(cfg.mountPoint, r.listing), uploads)
         && files == old(files) - Removed(Scan(cfg.mountPoint, r.listing), uploads))
    {
      var udc := UdcState(r.udcDirs, r.sysfs);
      var current := WriteSectors(cfg.diskPath, r.sysfs);
      var now := modem.clock;
      next, harvested, uploads := t, false, [];
      if udc == "configured" {
        if !next.connected {
          next := Tracking(current, current, next.lastWrite, true);
        }
        if current > next.lastSeen {
          next := next.(lastSeen := current, lastWrite := Some(now));
        }
        if next.lastWrite.Some? && now - next.lastWrite.value >= cfg.quietWindowS * 1000 {
          harvested, uploads := Harvest(r);
          var after := WriteSectors(cfg.diskPath, r.sysfsAfter);
          next := Tracking(after, after, None, false);
        }
      } else {
        if next.connected {
          if next.lastWrite.Some? {
            harvested, uploads := Harvest(r);
          }
          next := next.(lastWrite := None);
        }
        next := next.(connected := false);
      }
      modem.clock := modem.clock + cfg.pollIntervalS * 1000;
    }

    /** harvest_and_upload with what this poll would find. */
    method Harvest(r: Reading) returns (harvested: bool, ghost uploads: seq<bool>)
      modifies this, modem
      ensures harvested && modem.clock >= old(modem.clock)
      ensures |uploads| == |Scan(cfg.mountPoint, r.listing)|
        && actions == old(actions) + HarvestTrace(r.mounting, Scan(cfg.mountPoint, r.listing), uploads)
        && files == old(files) - Removed(Scan(cfg.mountPoint, r.listing), uploads)
    {
      var ok, candidates, network, ups := HarvestAndUpload(r.mounting, r.listing);
      uploads := ups;
      harvested := true;
    }

    /** One poll, as the monitor loop sees it. */
    method Watch(t: Tracking, r: Reading) returns (next: Tracking, harvested: bool, ghost trace: seq<Action>)
      modifies this, modem
      ensures modem.clock >= old(modem.clock)
      ensures actions == old(actions) + trace && Safe(trace, harvested)
    {
      var n, h, uploads := Poll(t, r);
      next, harvested := n, h;
      if harvested {
        trace := HarvestTrace(r.mounting, Scan(cfg.mountPoint, r.listing), uploads);
        HarvestKeeps(r.mounting, Scan(cfg.mountPoint, r.listing), uploads);
      } else {
        trace := [];
        SafeNothing();
      }
    }

    /** The monitor loop over a finite run of polls, from the tracking
        `t`: whatever the state before, when no umount left the disk
        mounted, the harvests never share the disk, and after any harvest
        the gadget is loaded and the disk unmounted. */
    method Monitor(t: Tracking, readings: seq<Reading>) returns (last: Tracking, harvests: nat, ghost run: seq<Action>)
      modifies this, modem
      ensures modem.clock >= old(modem.clock)
      ensures actions == old(actions) + run && harvests <= |readings|
      ensures Safe(run, harvests > 0)
    {
      last, harvests, run := t, 0, [];
      SafeNothing();
      var i := 0;
      while i < |readings|
        invariant 0 <= i <= |readings| && harvests <= i
        invariant modem.clock >= old(modem.clock)
        invariant actions == old(actions) + run
        invariant Safe(run, harvests > 0)
      {
        var next, harvested, trace := Watch(last, readings[i]);
        SafeAppend(run, harvests > 0, trace, harvested);
        last, run := next, run + trace;
        if harvested {
          harvests := harvests + 1;
        }
        i := i + 1;
      }
    }

    /** main, with the disk unmounted before the gadget is loaded when the
        boot loop did not end on an attempt that went on: unload the gadget,
        run the boot loop, load the gadget (exit code 1 when that fails),
        take the first write counter as baseline and monitor the given
        polls. `settleHeld` says whether that extra umount left the disk
        mounted. Whatever the state before, when no umount left the disk
        mounted, the disk is never shared, and at the end the gadget is
        loaded and the disk unmounted. */
    method Service(mounts: nat -> Mounting, outbox: Option<seq<string>>, settleHeld: bool, gadgetOk: bool,
                   sysfs: map<string, string>, readings: seq<Reading>)
      returns (exitCode: int, ghost run: seq<Action>)
      requires outbox.Some? ==> Distinct(outbox.value)
      modifies this, modem
      ensures exitCode == if gadgetOk then 0 else 1
      ensures actions == old(actions) + run
      ensures Safe(run, true)
    {
      actions := actions + [UnloadGadget];
      var proceeded, attempts, boot := BootPhase(mounts, outbox);
      ghost var settle: seq<Action> := [];
      if !proceeded {
        UnmountDisk(settleHeld);
        settle := [Unmount(settleHeld)];
      }
      actions := actions + [LoadGadget];
      run := [UnloadGadget] + boot + settle + [LoadGadget];
      StartKeeps(boot, attempts, proceeded, settleHeld);
      if !gadgetOk {
        exitCode := 1;
        return;
      }
      var counter := WriteSectors(cfg.diskPath, sysfs);
      var last, harvests, watched := Monitor(Tracking(counter, counter, None, false), readings);
      SafeAppend(run, true, watched, harvests > 0);
      run := run + watched;
      exitCode := 0;
    }
  }
}
