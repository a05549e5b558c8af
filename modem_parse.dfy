/** Pure decisions of the SIM7000G handler (modem_handler.py): parsing the
    `+CSQ` signal report and the `+FTPPUT: 1,1,<maxlength>` session reply,
    the resume record, the file reads and the command texts. */
module ModemParse {
  import opened Text

  type Byte = b: int | 0 <= b < 256
  type Bytes = seq<Byte>

  /** rssi reported when the signal is unknown (section 8.5 of 3GPP TS 27.007). */
  const UnknownRssi: int := 99

  /** A resume record is honoured for less than one hour. */
  const ResumeWindowMs: int := 3600 * 1000

  /** Progress is saved when bytes_sent is within one chunk past a multiple of 500 KiB. */
  const ProgressEvery: int := 500 * 1024

  /** Working chunk size when the modem's maximum cannot be parsed. */
  const FallbackChunk: int := 1000

  // ---------------------------------------------------------------------
  // Signal quality: check_signal
  // ---------------------------------------------------------------------

  /** `resp.split(":")[1].split(",")[0]` read as an int; `None` where Python
      raises (no second piece, or not a number). */
  function CsqField(resp: string): Option<int> {
    var parts := SplitOn(resp, ':');
    if |parts| < 2 then None else ParseInt(SplitOn(parts[1], ',')[0])
  }

  /** The result of check_signal for the reply of `AT+CSQ`. */
  function SignalFromReply(matched: bool, resp: string): (r: (bool, int))
    ensures r.0 <==> matched && Contains(resp, "+CSQ:") && CsqField(resp).Some?
    ensures r.0 ==> r.1 == CsqField(resp).value
    ensures !r.0 ==> r.1 == UnknownRssi
  {
    if matched && Contains(resp, "+CSQ:") then
      match CsqField(resp)
      case Some(v) => (true, v)
      case None => (false, UnknownRssi)
    else (false, UnknownRssi)
  }

  /** The reply text of `AT+CSQ` as the modem prints it: `+CSQ: <rssi>,<ber>`. */
  function CsqReply(echo: string, rssi: nat, ber: nat, tail: string): string {
    echo + "+CSQ:" + (" " + ShowNat(rssi) + "," + ShowNat(ber) + tail)
  }

  lemma NotIn(s: string, chars: set<char>, c: char)
    requires AllIn(s, chars) && c !in chars
    ensures c !in s
  {
  }

  lemma Assoc(a: string, b: string, c: string)
    ensures a + b + c == a + (b + c)
  {
  }

  lemma EmptyBack(a: string)
    ensures a + "" == a
  {
  }

  lemma Regroup3(a: string, b: string, x: char, c: string)
    ensures a + (b + [x]) + c == (a + b) + [x] + c
  {
  }

  lemma Regroup(a: string, b: string, x: char, c: string, d: string)
    ensures a + (b + [x]) + c + d == (a + b) + [x] + (c + d)
  {
  }

  lemma EmptyFront(a: string, b: string)
    ensures "" + a + b == a + b
  {
  }

  /** A well-formed signal report is read back as its rssi. */
  lemma CsqRoundTrip(echo: string, rssi: nat, ber: nat, tail: string)
    requires ':' !in echo && ':' !in tail
    ensures SignalFromReply(true, CsqReply(echo, rssi, ber, tail)) == (true, rssi)
  {
    var n1, n2 := ShowNat(rssi), ShowNat(ber);
    var field := " " + n1;
    var after := " " + n1 + "," + n2 + tail;
    Assoc(field + [','], n2, tail);
    assert "+CSQ:" == "+CSQ" + [':'];
    Regroup3(echo, "+CSQ", ':', after);
    var reply := CsqReply(echo, rssi, ber, tail);
    assert reply == (echo + "+CSQ") + [':'] + after;
    assert after == field + [','] + (n2 + tail);
    NotIn(n1, Digits, ':');
    NotIn(n2, Digits, ':');
    NotIn(n1, Digits, ',');
    SplitOnFirst(echo + "+CSQ", ':', after);
    SplitOnNone(after, ':');
    SplitOnFirst(field, ',', n2 + tail);
    ParseShowNat(" ", rssi, "");
    EmptyBack(field);
    ContainsInfix(echo, "+CSQ:", after);
  }

  // ---------------------------------------------------------------------
  // Session open reply: the working chunk size
  // ---------------------------------------------------------------------

  /** `int(resp.split(",")[-1].strip())` capped at the configured chunk
      size, or the fallback when Python's int() raises. */
  function WorkingChunk(resp: string, chunkSize: int): (r: int)
    ensures ParseInt(Last(SplitOn(resp, ','))).None? ==> r == FallbackChunk
    ensures ParseInt(Last(SplitOn(resp, ','))).Some? ==>
              r <= chunkSize && r <= ParseInt(Last(SplitOn(resp, ','))).value &&
              (r == chunkSize || r == ParseInt(Last(SplitOn(resp, ','))).value)
  {
    match ParseInt(Last(SplitOn(resp, ',')))
    case Some(v) => if v < chunkSize then v else chunkSize
    case None => FallbackChunk
  }

  function Last<T>(s: seq<T>): T
    requires |s| >= 1
  {
    s[|s| - 1]
  }

  /** The piece after the last separator is everything after it. */
  lemma {:induction false} SplitOnLast(a: string, c: char, b: string)
    requires c !in b
    ensures Last(SplitOn(a + [c] + b, c)) == b
    decreases |a|
  {
    if a == [] {
      assert a + [c] + b == [c] + b;
      assert ([c] + b)[1..] == b;
      SplitOnNone(b, c);
    } else {
      assert (a + [c] + b)[1..] == a[1..] + [c] + b;
      SplitOnLast(a[1..], c, b);
      var rest := SplitOn(a[1..] + [c] + b, c);
      if a[0] != c {
        // the first piece grows, the last is unchanged: there are at least two pieces
        SplitOnAtLeastTwo(a[1..], c, b);
      }
    }
  }

  lemma {:induction false} SplitOnAtLeastTwo(a: string, c: char, b: string)
    ensures |SplitOn(a + [c] + b, c)| >= 2
    decreases |a|
  {
    if a == [] {
      assert a + [c] + b == [c] + b;
      assert ([c] + b)[1..] == b;
    } else {
      assert (a + [c] + b)[1..] == a[1..] + [c] + b;
      SplitOnAtLeastTwo(a[1..], c, b);
    }
  }

  /** The ready reply `+FTPPUT: 1,1,<maxlength>` yields the smaller of the
      modem's maximum and the configured chunk size. */
  lemma SessionReplyChunk(pre: string, maxLen: nat, pad: string, chunkSize: int)
    requires AllIn(pad, Whitespace)
    ensures WorkingChunk(pre + "+FTPPUT: 1,1," + ShowNat(maxLen) + pad, chunkSize)
            == if maxLen < chunkSize then maxLen else chunkSize
  {
    var b := ShowNat(maxLen) + pad;
    assert "+FTPPUT: 1,1," == "+FTPPUT: 1,1" + [','];
    Regroup(pre, "+FTPPUT: 1,1", ',', ShowNat(maxLen), pad);
    NotIn(ShowNat(maxLen), Digits, ',');
    NotIn(pad, Whitespace, ',');
    SplitOnLast(pre + "+FTPPUT: 1,1", ',', b);
    ParseShowNat("", maxLen, pad);
    EmptyFront(ShowNat(maxLen), pad);
  }

  // ---------------------------------------------------------------------
  // Resume record: load_progress and the choice between APPE and STOR
  // ---------------------------------------------------------------------

  /** The persisted progress record (the JSON file under /tmp). */
  datatype Progress = Progress(path: string, bytesSent: int, savedAt: int)

  /** load_progress: the stored bytes_sent if the record is for this path
      and less than an hour old, otherwise 0. */
  function ResumeOffset(record: Option<Progress>, path: string, now: int): (r: int)
    ensures r != 0 ==> record.Some? && record.value.path == path &&
                       now - record.value.savedAt < ResumeWindowMs && r == record.value.bytesSent
    ensures record.Some? && record.value.path == path && now - record.value.savedAt < ResumeWindowMs ==>
              r == record.value.bytesSent
  {
    match record
    case None => 0
    case Some(p) => if p.path == path && now - p.savedAt < ResumeWindowMs then p.bytesSent else 0
  }

  /** upload_ftp's resume decision: append from the stored offset only when
      it lies strictly inside the file, otherwise store from 0. */
  function ResumeFrom(record: Option<Progress>, path: string, now: int, size: nat): (r: (nat, bool))
    ensures r.1 <==> r.0 > 0
    ensures r.1 ==> r.0 < size && record.Some? && record.value.path == path &&
                    now - record.value.savedAt < ResumeWindowMs && r.0 == record.value.bytesSent
    ensures (record.Some? && record.value.path == path && now - record.value.savedAt < ResumeWindowMs &&
             0 < record.value.bytesSent < size) ==> r == (record.value.bytesSent, true)
  {
    var stored := ResumeOffset(record, path, now);
    if 0 < stored < size then (stored, true) else (0, false)
  }

  /** A record an hour old or older never resumes anything. */
  lemma StaleRecordRestarts(p: Progress, path: string, now: int, size: nat)
    requires now - p.savedAt >= ResumeWindowMs
    ensures ResumeFrom(Some(p), path, now, size) == (0, false)
  {
  }

  // ---------------------------------------------------------------------
  // Files
  // ---------------------------------------------------------------------

  /** The contents of the file at `path`, None when there is none. */
  function Stored(files: map<string, Bytes>, path: string): Option<Bytes> {
    if path in files then Some(files[path]) else None
  }

  /** Python `f.read(n)` at position pos: everything left for a negative n,
      otherwise at most n bytes. */
  function Read<T>(data: seq<T>, pos: nat, n: int): (r: seq<T>)
    requires pos <= |data|
    ensures pos + |r| <= |data| && r == data[pos..pos + |r|]
    ensures n < 0 ==> |r| == |data| - pos
    ensures n >= 0 ==> |r| == if pos + n <= |data| then n else |data| - pos
  {
    data[pos..pos + ReadLength(|data| - pos, n)]
  }

  /** How many of the `available` bytes a read of n bytes returns. */
  function ReadLength(available: nat, n: int): nat {
    if n < 0 || n > available then available else n
  }

  /** os.path.basename: the text after the last '/', so either the whole
      path or what follows a '/'. */
  function Basename(path: string): (r: string)
    ensures '/' !in r
    ensures EndsWith(path, r)
    ensures |r| == |path| || path[|path| - |r| - 1] == '/'
    decreases |path|
  {
    if path == [] || path[|path| - 1] == '/' then []
    else
      var init := path[..|path| - 1];
      var b := Basename(init);
      var r := b + [path[|path| - 1]];
      assert path[|path| - |r|..] == init[|init| - |b|..] + [path[|path| - 1]];
      assert |r| < |path| ==> path[|path| - |r| - 1] == init[|init| - |b| - 1];
      r
  }

  // ---------------------------------------------------------------------
  // Command texts
  // ---------------------------------------------------------------------

  const OpenSession: string := "AT+FTPPUT=1"
  const CloseSession: string := "AT+FTPPUT=2,0"
  const SignalQuery: string := "AT+CSQ"
  const RegistrationQuery: string := "AT+CREG?"

  /** `AT+FTPPUT=2,<len>`: announce a chunk of len bytes (len 0 closes the session). */
  function Announce(len: nat): string {
    "AT+FTPPUT=2," + ShowNat(len)
  }

  /** Announcing a data chunk is never the close command. */
  lemma AnnounceNotClose(len: nat)
    requires len >= 1
    ensures Announce(len) != CloseSession
  {
    if Announce(len) == CloseSession {
      assert CloseSession == Announce(0);
      assert Announce(len)[12..] == ShowNat(len);
      assert Announce(0)[12..] == ShowNat(0);
      ShowNatInjective(len, 0);
    }
  }

  function PutOption(append: bool): string {
    if append then "AT+FTPPUTOPT=\"APPE\"" else "AT+FTPPUTOPT=\"STOR\""
  }

  /** The session configuration upload_ftp sends before opening the session. */
  function SessionConfig(server: string, port: nat, user: string, password: string,
                         filename: string, remotePath: string, append: bool): (r: seq<string>)
    ensures |r| == 10 && r[9] == PutOption(append)
  {
    [ "AT+FTPCID=1",
      "AT+FTPSERV=\"" + server + "\"",
      "AT+FTPPORT=" + ShowNat(port),
      "AT+FTPMODE=1",
      "AT+FTPUN=\"" + user + "\"",
      "AT+FTPPW=\"" + password + "\"",
      "AT+FTPPUTNAME=\"" + filename + "\"",
      "AT+FTPPUTPATH=\"" + remotePath + "\"",
      "AT+FTPTYPE=\"I\"",
      PutOption(append) ]
  }

  /** None of the configuration commands is the close command. */
  lemma SessionConfigNotClose(server: string, port: nat, user: string, password: string,
                              filename: string, remotePath: string, append: bool)
    ensures CloseSession !in SessionConfig(server, port, user, password, filename, remotePath, append)
  {
    var cfg := SessionConfig(server, port, user, password, filename, remotePath, append);
    forall k | 0 <= k < 10 ensures cfg[k] != CloseSession {
      if k == 1 { assert |cfg[k]| <= 13 ==> cfg[k][6] != CloseSession[6]; }
      if k == 2 { assert |cfg[k]| <= 13 ==> cfg[k][7] != CloseSession[7]; }
      if k == 4 { assert |cfg[k]| <= 13 ==> cfg[k][6] != CloseSession[6]; }
      if k == 5 { assert |cfg[k]| <= 13 ==> cfg[k][7] != CloseSession[7]; }
      if k == 6 { assert |cfg[k]| >= 15; }
      if k == 7 { assert |cfg[k]| >= 15; }
    }
  }
}
