/** The outbox uploader (src/airbridge/ftp_uploader.py): checks the signal,
    then uploads the regular files of the outbox oldest first, deleting each
    one after its upload, and stops at the first failure.

    The outbox listing (path, whether it is a regular file, modification
    time) is an input; the files' contents are a map from path to bytes;
    the paths whose deletion raises are a fixed set. */
module FtpUploader {
  import opened Text
  import opened Transaction
  import opened ModemParse
  import opened ModemHandler

  /** An entry of the outbox directory. */
  datatype OutboxEntry = OutboxEntry(path: string, isFile: bool, mtime: int)

  /** The ftp and modem entries of the uploader's configuration. */
  datatype UploaderConfig = UploaderConfig(
    server: string, port: nat, user: string, password: string, remotePath: string,
    apn: string, maxRetries: int, retryDelayS: nat)

  /** The chunk size initialize_modem gives the modem handler. */
  const UploaderChunkSize: int := 512000

  /** Below this rssi the signal is too weak to upload. */
  const MinRssi: int := 5

  // ---------------------------------------------------------------------
  // Signal quality
  // ---------------------------------------------------------------------

  /** check_signal_quality on the outcome of check_signal: no verdict
      without a modem or a reading (rssi 0), an unknown (99) or very weak
      (below 5) signal refused, any other accepted. */
  function SignalVerdict(modemSet: bool, success: bool, rssi: int): (r: (bool, int))
    ensures r.0 <==> modemSet && success && rssi != UnknownRssi && rssi >= MinRssi
    ensures r.1 == if modemSet && success then rssi else 0
  {
    if !modemSet then (false, 0)
    else if !success then (false, 0)
    else if rssi == UnknownRssi then (false, rssi)
    else if rssi < MinRssi then (false, rssi)
    else if rssi < 10 then (true, rssi)
    else (true, rssi)
  }

  /** A weak signal (rssi 5 to 9) is still good enough to upload. */
  lemma WeakSignalUploads(rssi: int)
    requires MinRssi <= rssi < 10
    ensures SignalVerdict(true, true, rssi) == (true, rssi)
  {
  }

  /** A failed reading is refused whatever rssi check_signal reported. */
  lemma FailedReadingRefused(modemSet: bool, rssi: int)
    ensures SignalVerdict(modemSet, false, rssi) == (false, 0)
  {
  }

  // ---------------------------------------------------------------------
  // The pending files
  // ---------------------------------------------------------------------

  /** The regular files of a listing, in listing order. */
  function Regular(listing: seq<OutboxEntry>): seq<OutboxEntry> {
    if listing == [] then []
    else Regular(listing[..|listing| - 1]) + (if listing[|listing| - 1].isFile then [listing[|listing| - 1]] else [])
  }

  lemma RegularSnoc(listing: seq<OutboxEntry>, e: OutboxEntry)
    ensures Regular(listing + [e]) == Regular(listing) + (if e.isFile then [e] else [])
  {
    assert (listing + [e])[..|listing|] == listing;
  }

  /** Everything Regular keeps is a regular file of the listing. */
  lemma {:induction false} RegularOnly(listing: seq<OutboxEntry>, e: OutboxEntry)
    ensures e in Regular(listing) <==> e in listing && e.isFile
    decreases |listing|
  {
    if listing != [] {
      var init, last := listing[..|listing| - 1], listing[|listing| - 1];
      RegularOnly(init, e);
      assert listing == init + [last];
    }
  }

  /** Oldest modification time first. */
  predicate ByAge(s: seq<OutboxEntry>) {
    forall i, j :: 0 <= i < j < |s| ==> s[i].mtime <= s[j].mtime
  }

  /** `e` placed after every entry not newer than it. */
  function Insert(e: OutboxEntry, s: seq<OutboxEntry>): (r: seq<OutboxEntry>)
    requires ByAge(s)
    ensures ByAge(r) && multiset(r) == multiset(s) + multiset{e}
  {
    if s == [] then [e]
    else if e.mtime < s[0].mtime then
      ConsByAge(e, s);
      [e] + s
    else
      var rest := Insert(e, s[1..]);
      assert s == [s[0]] + s[1..];
      NoneOlder(s[0], e, s[1..], rest);
      ConsByAge(s[0], rest);
      [s[0]] + rest
  }

  lemma ConsByAge(head: OutboxEntry, tail: seq<OutboxEntry>)
    requires ByAge(tail) && forall k :: 0 <= k < |tail| ==> head.mtime <= tail[k].mtime
    ensures ByAge([head] + tail)
  {
  }

  /** Nothing in a rearrangement of `tail` and `e` is older than `head`
      when nothing in `tail` and not `e` is. */
  lemma NoneOlder(head: OutboxEntry, e: OutboxEntry, tail: seq<OutboxEntry>, rest: seq<OutboxEntry>)
    requires head.mtime <= e.mtime
    requires forall k :: 0 <= k < |tail| ==> head.mtime <= tail[k].mtime
    requires multiset(rest) == multiset(tail) + multiset{e}
    ensures forall k :: 0 <= k < |rest| ==> head.mtime <= rest[k].mtime
  {
    forall k | 0 <= k < |rest|
      ensures head.mtime <= rest[k].mtime
    {
      assert rest[k] in multiset(rest);
      if rest[k] != e {
        assert rest[k] in multiset(tail);
        var j :| 0 <= j < |tail| && tail[j] == rest[k];
      }
    }
  }

  /** get_pending_files: the regular files of the outbox, oldest first. */
  method PendingFiles(listing: seq<OutboxEntry>) returns (pending: seq<OutboxEntry>)
    ensures ByAge(pending) && multiset(pending) == multiset(Regular(listing))
  {
    pending := [];
    for i := 0 to |listing|
      invariant ByAge(pending) && multiset(pending) == multiset(Regular(listing[..i]))
    {
      RegularSnoc(listing[..i], listing[i]);
      assert listing[..i + 1] == listing[..i] + [listing[i]];
      if listing[i].isFile {
        pending := Insert(listing[i], pending);
      }
    }
    assert listing[..|listing|] == listing;
  }

  /** The paths of the first n pending files. */
  function PathsOf(es: seq<OutboxEntry>): set<string> {
    if es == [] then {} else PathsOf(es[..|es| - 1]) + {es[|es| - 1].path}
  }

  lemma PathsSnoc(es: seq<OutboxEntry>, i: nat)
    requires i < |es|
    ensures PathsOf(es[..i + 1]) == PathsOf(es[..i]) + {es[i].path}
  {
    assert es[..i + 1][..i] == es[..i];
  }

  // ---------------------------------------------------------------------
  // The upload loop on the modem's replies
  // ---------------------------------------------------------------------

  /** What upload_ftp is called with besides the file: the handler's chunk
      size and the configured retry policy; and the outbox files whose
      deletion raises. */
  datatype UploadPolicy = UploadPolicy(chunkSize: int, maxRetries: int, retryDelayS: nat, locked: set<string>)

  /** The modem's port and progress file and the outbox files after some
      uploads, with the number of uploads that succeeded. */
  datatype OutboxRun = OutboxRun(done: nat, line: Line, record: Option<Progress>, files: map<string, Bytes>)

  /** The upload loop of process_outbox on the modem's replies: each pending
      file goes through upload_ftp on the port the previous upload left; a
      success deletes the file (unless its deletion raises) and goes on, and
      the first failure ends the loop. */
  function UploadRun(s: Line, record: Option<Progress>, files: map<string, Bytes>, pol: UploadPolicy,
                     pending: seq<OutboxEntry>): OutboxRun
    decreases |pending|
  {
    if pending == [] then OutboxRun(0, s, record, files)
    else
      var path := pending[0].path;
      var run := FtpUpload(s, record, pol.chunkSize, path, Stored(files, path), pol.maxRetries, pol.retryDelayS);
      if !run.r.Success? then OutboxRun(0, run.line, ProgressAfter(run, record, path), files)
      else
        var w := UploadRun(run.line, None, files - ({path} - pol.locked), pol, pending[1..]);
        w.(done := w.done + 1)
  }

  /** UploadRun from the i-th pending file on, one upload unfolded. */
  lemma UploadRunFrom(s: Line, record: Option<Progress>, files: map<string, Bytes>, pol: UploadPolicy,
                      pending: seq<OutboxEntry>, i: nat, run: FtpRun)
    requires i < |pending|
    requires run == FtpUpload(s, record, pol.chunkSize, pending[i].path, Stored(files, pending[i].path),
                              pol.maxRetries, pol.retryDelayS)
    ensures !run.r.Success? ==>
      UploadRun(s, record, files, pol, pending[i..]) == OutboxRun(0, run.line, ProgressAfter(run, record, pending[i].path), files)
    ensures run.r.Success? ==>
      UploadRun(s, record, files, pol, pending[i..]) ==
      UploadRun(run.line, None, files - ({pending[i].path} - pol.locked), pol, pending[i + 1..]).(
        done := UploadRun(run.line, None, files - ({pending[i].path} - pol.locked), pol, pending[i + 1..]).done + 1)
  {
    assert pending[i..][0] == pending[i];
    assert pending[i..][1..] == pending[i + 1..];
  }

  /** The loop stops at the first failure: the first `done` uploads all
      succeed, and unless every file went through, the upload of the next
      one fails on the port the successes left, and the loop ends right
      there. */
  lemma UploadRunStops(s: Line, record: Option<Progress>, files: map<string, Bytes>,
                       pol: UploadPolicy, pending: seq<OutboxEntry>)
    ensures UploadRun(s, record, files, pol, pending).done <= |pending|
    ensures var d := UploadRun(s, record, files, pol, pending).done;
      UploadRun(s, record, files, pol, pending[..d]).done == d
    ensures var w := UploadRun(s, record, files, pol, pending);
      var p := UploadRun(s, record, files, pol, pending[..w.done]);
      w.done < |pending| ==>
        var path := pending[w.done].path;
        var run := FtpUpload(p.line, p.record, pol.chunkSize, path, Stored(p.files, path), pol.maxRetries, pol.retryDelayS);
        !run.r.Success? && w == OutboxRun(w.done, run.line, ProgressAfter(run, p.record, path), p.files)
  {
    var w := UploadRun(s, record, files, pol, pending);
    assert pending + [] == pending;
    UploadRunAppend(s, record, files, pol, pending, []);
    var d := w.done;
    assert pending[..d] + pending[d..] == pending;
    UploadRunAppend(s, record, files, pol, pending[..d], pending[d..]);
    var p := UploadRun(s, record, files, pol, pending[..d]);
    if d < |pending| {
      var path := pending[d].path;
      UploadRunFrom(p.line, p.record, p.files, pol, pending, d,
                    FtpUpload(p.line, p.record, pol.chunkSize, path, Stored(p.files, path), pol.maxRetries, pol.retryDelayS));
    }
  }

  /** Files after a failure are never attempted: appending more pending
      files changes nothing when the loop stopped early, and otherwise runs
      them on from where the loop ended. */
  lemma {:induction false} UploadRunAppend(s: Line, record: Option<Progress>, files: map<string, Bytes>,
                                           pol: UploadPolicy, a: seq<OutboxEntry>, b: seq<OutboxEntry>)
    ensures UploadRun(s, record, files, pol, a).done <= |a|
    ensures var w := UploadRun(s, record, files, pol, a);
      w.done < |a| ==> UploadRun(s, record, files, pol, a + b) == w
    ensures var w := UploadRun(s, record, files, pol, a);
      var v := UploadRun(w.line, w.record, w.files, pol, b);
      w.done == |a| ==> UploadRun(s, record, files, pol, a + b) == v.(done := v.done + |a|)
    decreases |a|
  {
    if a == [] {
      assert a + b == b;
    } else {
      assert (a + b)[0] == a[0];
      assert (a + b)[1..] == a[1..] + b;
      var path := a[0].path;
      var run := FtpUpload(s, record, pol.chunkSize, path, Stored(files, path), pol.maxRetries, pol.retryDelayS);
      if run.r.Success? {
        UploadRunAppend(run.line, None, files - ({path} - pol.locked), pol, a[1..], b);
      }
    }
  }

  /** Where the upload loop stands before the i-th pending file: the whole
      run is the run from there on, after i successes. */
  ghost predicate UploadingAt(whole: OutboxRun, s: Line, record: Option<Progress>, files: map<string, Bytes>,
                              pol: UploadPolicy, pending: seq<OutboxEntry>, i: nat)
    requires i <= |pending|
  {
    var w := UploadRun(s, record, files, pol, pending[i..]);
    whole == w.(done := w.done + i)
  }

  /** One upload of the loop moves UploadingAt to the next file after a
      success, and ends the whole run after a failure. */
  /** One upload_file call of the loop, from port `s`, progress file
      `record` and outbox `files` to `s2`, `record2` and `files2`. */
  ghost predicate Uploaded(s: Line, record: Option<Progress>, files: map<string, Bytes>, pol: UploadPolicy,
                           path: string, ok: bool, s2: Line, record2: Option<Progress>, files2: map<string, Bytes>)
  {
    var run := FtpUpload(s, record, pol.chunkSize, path, Stored(files, path), pol.maxRetries, pol.retryDelayS);
    && (ok <==> run.r.Success?) && s2 == run.line && record2 == ProgressAfter(run, record, path)
    && (ok ==> path in files) && files2 == (if ok then files - ({path} - pol.locked) else files)
  }

  lemma UploadingStep(whole: OutboxRun, s: Line, record: Option<Progress>, files: map<string, Bytes>,
                      f0: map<string, Bytes>, pol: UploadPolicy, pending: seq<OutboxEntry>, i: nat,
                      ok: bool, s2: Line, record2: Option<Progress>, files2: map<string, Bytes>)
    requires i < |pending| && UploadingAt(whole, s, record, files, pol, pending, i)
    requires PathsOf(pending[..i]) <= f0.Keys && files == f0 - (PathsOf(pending[..i]) - pol.locked)
    requires Uploaded(s, record, files, pol, pending[i].path, ok, s2, record2, files2)
    ensures ok ==>
      && PathsOf(pending[..i + 1]) <= f0.Keys && files2 == f0 - (PathsOf(pending[..i + 1]) - pol.locked)
      && UploadingAt(whole, s2, record2, files2, pol, pending, i + 1)
    ensures !ok ==> files2 == files && whole == OutboxRun(i, s2, record2, files2)
  {
    UploadRunFrom(s, record, files, pol, pending, i,
                  FtpUpload(s, record, pol.chunkSize, pending[i].path, Stored(files, pending[i].path),
                            pol.maxRetries, pol.retryDelayS));
    PathsSnoc(pending, i);
  }

  /** Against a modem that never answers, the first pending file fails and
      the loop uploads nothing. */
  lemma SilentOutbox(s: Line, record: Option<Progress>, files: map<string, Bytes>, pol: UploadPolicy,
                     pending: seq<OutboxEntry>)
    requires Silent(s.script) && pending != []
    ensures UploadRun(s, record, files, pol, pending).done == 0
  {
    var path := pending[0].path;
    if path in files {
      SilentUpload(s, record, pol.chunkSize, path, Stored(files, path), pol.maxRetries, pol.retryDelayS);
    }
  }

  // ---------------------------------------------------------------------
  // The uploader
  // ---------------------------------------------------------------------

  class Uploader {
    const cfg: UploaderConfig
    const modem: Sim7000
    /** Whether initialize_modem has set up the modem handler. */
    var modemSet: bool
    /** The files of the outbox. */
    var files: map<string, Bytes>
    /** The files whose deletion raises. */
    const locked: set<string>

    constructor (cfg: UploaderConfig, modem: Sim7000, files: map<string, Bytes>, locked: set<string>)
      requires modem.chunkSize == UploaderChunkSize
      ensures this.cfg == cfg && this.modem == modem && this.files == files && this.locked == locked
      ensures !modemSet
    {
      this.cfg := cfg;
      this.modem := modem;
      this.files := files;
      this.locked := locked;
      modemSet := false;
    }

    function FileAt(path: string): Option<Bytes>
      reads this
    {
      Stored(files, path)
    }

    /** The chunk size and retry policy upload_ftp is called with, and the
        files whose deletion raises. */
    function Policy(): UploadPolicy {
      UploadPolicy(modem.chunkSize, cfg.maxRetries, cfg.retryDelayS, locked)
    }

    /** initialize_modem: the handler is set up whatever happens next;
        the result is whether the network came up, as the modem's replies
        decide. */
    method InitializeModem() returns (ok: bool)
      modifies this, modem
      ensures modemSet && files == old(files)
      ensures var run := NetworkSetup(old(modem.Now()));
        (ok <==> run.r.Success?) && modem.Now() == run.line
      ensures modem.clock >= old(modem.clock) && modem.progress == old(modem.progress)
    {
      modemSet := true;
      ghost var s0 := modem.Now();
      var r, polls := modem.SetupNetwork(cfg.apn);
      ok := r.Success?;
      NetworkLater(s0);
    }

    /** check_signal_quality: the verdict on the modem's `AT+CSQ` reading;
        without a modem, (false, 0) and the port is not touched. */
    method CheckSignalQuality() returns (ok: bool, rssi: int)
      modifies modem
      ensures !modemSet ==> (ok, rssi) == (false, 0) && modem.log == old(modem.log) && modem.clock == old(modem.clock)
      ensures modemSet ==>
        var x := SendAtReply(old(modem.script), "OK", 2);
        var reading := SignalFromReply(x.matched, x.text);
        (ok, rssi) == SignalVerdict(true, reading.0, reading.1)
      ensures modemSet ==> modem.Now() == SendAtOn(old(modem.Now()), "OK", 2).2
      ensures modem.clock >= old(modem.clock) && modem.progress == old(modem.progress)
    {
      if !modemSet {
        return false, 0;
      }
      var success, value := modem.CheckSignal();
      var verdict := SignalVerdict(true, success, value);
      ok, rssi := verdict.0, verdict.1;
    }

    /** The upload_ftp call of upload_file, with the configured server,
        credentials, remote directory and retry policy: whether the upload
        went through, as the modem's replies decide. */
    method Transfer(path: string) returns (ok: bool)
      modifies modem
      ensures modem.clock >= old(modem.clock)
      ensures ok == FtpUpload(old(modem.Now()), old(modem.progress), modem.chunkSize, path, FileAt(path),
                              cfg.maxRetries, cfg.retryDelayS).r.Success?
      ensures var run := FtpUpload(old(modem.Now()), old(modem.progress), modem.chunkSize, path, FileAt(path),
                                   cfg.maxRetries, cfg.retryDelayS);
        modem.Now() == run.line && modem.progress == ProgressAfter(run, old(modem.progress), path)
      ensures ok ==> path in files && modem.progress == None
    {
      ghost var s0 := modem.Now();
      var r, resumeFrom, sent, maxChunk, acked :=
        modem.UploadFtp(cfg.server, cfg.port, cfg.user, cfg.password, path, FileAt(path), cfg.remotePath,
                        cfg.maxRetries, cfg.retryDelayS);
      UploadLater(s0, old(modem.progress), modem.chunkSize, path, FileAt(path), cfg.maxRetries, cfg.retryDelayS);
      ok := r.Success?;
    }

    /** upload_file: false without a modem; otherwise upload_ftp, and on
        success delete the file, still answering true when the deletion
        raises. */
    method UploadFile(path: string) returns (ok: bool)
      modifies this, modem
      ensures modemSet == old(modemSet) && modem.clock >= old(modem.clock)
      ensures !old(modemSet) ==> !ok && modem.log == old(modem.log)
      ensures ok <==> old(modemSet) && FtpUpload(old(modem.Now()), old(modem.progress), modem.chunkSize, path,
                                                 old(FileAt(path)), cfg.maxRetries, cfg.retryDelayS).r.Success?
      ensures old(modemSet) ==>
        var run := FtpUpload(old(modem.Now()), old(modem.progress), modem.chunkSize, path, old(FileAt(path)),
                             cfg.maxRetries, cfg.retryDelayS);
        modem.Now() == run.line && modem.progress == ProgressAfter(run, old(modem.progress), path)
      ensures ok ==> path in old(files) && files == old(files) - ({path} - locked) && modem.progress == None
      ensures !ok ==> files == old(files)
    {
      if !modemSet {
        return false;
      }
      ghost var uploads := FtpUpload(modem.Now(), modem.progress, modem.chunkSize, path, FileAt(path),
                                     cfg.maxRetries, cfg.retryDelayS).r.Success?;
      var sentOk := Transfer(path);
      assert sentOk == uploads;
      if !sentOk {
        return false;
      }
      if path !in locked {
        files := files - {path};
      }
      ok := true;
    }

    /** One upload_file call of the upload loop, as the loop sees it. */
    method UploadEntry(path: string) returns (ok: bool)
      requires modemSet
      modifies this, modem
      ensures modemSet && modem.clock >= old(modem.clock)
      ensures Uploaded(old(modem.Now()), old(modem.progress), old(files), Policy(), path, ok,
                       modem.Now(), modem.progress, files)
    {
      ok := UploadFile(path);
    }

    /** The upload loop of process_outbox: the files in order, stopping at
        the first failure. `done` files were uploaded; the one after them
        was attempted and failed unless all were uploaded; none after it was
        attempted. */
    method UploadInOrder(pending: seq<OutboxEntry>) returns (ok: bool, ghost done: nat, ghost attempts: nat)
      requires modemSet
      modifies this, modem
      ensures modemSet && modem.clock >= old(modem.clock)
      ensures done <= |pending| && (ok <==> done == |pending|)
      ensures attempts == if ok then |pending| else done + 1
      ensures PathsOf(pending[..done]) <= old(files).Keys
      ensures files == old(files) - (PathsOf(pending[..done]) - locked)
      ensures var w := UploadRun(old(modem.Now()), old(modem.progress), old(files), Policy(), pending);
        done == w.done && modem.Now() == w.line && modem.progress == w.record && files == w.files
    {
      ghost var whole := UploadRun(modem.Now(), modem.progress, files, Policy(), pending);
      assert pending[0..] == pending;
      ok, done, attempts := true, 0, 0;
      var i := 0;
      while i < |pending|
        invariant 0 <= i <= |pending| && done == i && attempts == i && modemSet
        invariant PathsOf(pending[..i]) <= old(files).Keys
        invariant files == old(files) - (PathsOf(pending[..i]) - locked)
        invariant modem.clock >= old(modem.clock)
        invariant UploadingAt(whole, modem.Now(), modem.progress, files, Policy(), pending, i)
      {
        var uploaded := UploadNext(pending, i, old(files), whole);
        attempts := attempts + 1;
        if !uploaded {
          ok := false;
          return;
        }
        i := i + 1;
        done := i;
      }
      assert pending[i..] == [];
    }

    /** The upload of the i-th pending file, once the ones before it went
        through. */
    method UploadNext(pending: seq<OutboxEntry>, i: nat, ghost f0: map<string, Bytes>, ghost whole: OutboxRun)
      returns (uploaded: bool)
      requires modemSet && i < |pending|
      requires PathsOf(pending[..i]) <= f0.Keys && files == f0 - (PathsOf(pending[..i]) - Policy().locked)
      requires UploadingAt(whole, modem.Now(), modem.progress, files, Policy(), pending, i)
      modifies this, modem
      ensures modemSet && modem.clock >= old(modem.clock)
      ensures uploaded ==>
        && PathsOf(pending[..i + 1]) <= f0.Keys && files == f0 - (PathsOf(pending[..i + 1]) - Policy().locked)
        && UploadingAt(whole, modem.Now(), modem.progress, files, Policy(), pending, i + 1)
      ensures !uploaded ==> files == old(files) && whole == OutboxRun(i, modem.Now(), modem.progress, files)
    {
      ghost var s, record, before := modem.Now(), modem.progress, files;
      uploaded := UploadEntry(pending[i].path);
      UploadingStep(whole, s, record, before, f0, Policy(), pending, i, uploaded, modem.Now(), modem.progress, files);
    }

    /** process_outbox: set up the modem when there is none yet, refuse
        to upload on a poor signal, then upload the pending files oldest
        first, stopping at the first failure. The result is true iff every
        pending file was uploaded. */
    method ProcessOutbox(listing: seq<OutboxEntry>)
      returns (ok: bool, ghost signal: bool, ghost pending: seq<OutboxEntry>, ghost done: nat, ghost attempts: nat)
      modifies this, modem
      ensures modem.clock >= old(modem.clock)
      ensures var setup := NetworkSetup(old(modem.Now()));
        var at := if old(modemSet) then old(modem.Now()) else setup.line;
        var x := SendAtReply(at.script, "OK", 2);
        var reading := SignalFromReply(x.matched, x.text);
        signal <==> (old(modemSet) || setup.r.Success?) && SignalVerdict(true, reading.0, reading.1).0
      ensures !signal ==> !ok && attempts == 0 && files == old(files)
      ensures signal ==> modemSet && ByAge(pending) && multiset(pending) == multiset(Regular(listing))
      ensures done <= |pending| && (ok <==> signal && done == |pending|)
      ensures signal ==> attempts == if ok then |pending| else done + 1
      ensures PathsOf(pending[..done]) <= old(files).Keys
      ensures files == old(files) - (PathsOf(pending[..done]) - locked)
      ensures signal ==>
        var setup := NetworkSetup(old(modem.Now()));
        var at := if old(modemSet) then old(modem.Now()) else setup.line;
        var w := UploadRun(SendAtOn(at, "OK", 2).2, old(modem.progress), old(files), Policy(), pending);
        done == w.done && modem.Now() == w.line && modem.progress == w.record
    {
      signal, pending, done, attempts := false, [], 0, 0;
      if !modemSet {
        var ready := InitializeModem();
        if !ready {
          return false, signal, pending, done, attempts;
        }
      }
      var signalOk, rssi := CheckSignalQuality();
      if !signalOk {
        return false, signal, pending, done, attempts;
      }
      signal := true;
      var todo := PendingFiles(listing);
      pending := todo;
      if todo == [] {
        return true, signal, pending, done, attempts;
      }
      ok, done, attempts := UploadInOrder(todo);
    }
  }
}
