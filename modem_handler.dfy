/** The SIM7000G handler (class SIM7000GHandler of modem_handler.py) as an
    object over a scripted serial port.

    The port is `script` (what each poll finds waiting, see module
    Transaction), everything written to it is appended to `log`, the sleeps
    advance `clock` (milliseconds), and the progress file under /tmp is the
    field `progress` (None when the file does not exist). */
module ModemHandler {
  import opened Text
  import opened Transaction
  import opened ModemParse

  /** One write to the serial port: an AT command line or raw data. */
  datatype Wire = Command(line: string) | Data(bytes: Bytes)

  /** The (ok, message) pairs the handler returns, with the message's meaning. */
  datatype Outcome<T, E> = Success(value: T) | Failure(error: E)

  datatype NetError = ModemNotResponding | NoIpAddress

  datatype FtpError =
    | FileNotFound(path: string)
    | SessionNotOpened(reply: string)
    | ChunkFailed(offset: int, retries: int)
    | CloseUnconfirmed(reply: string)

  datatype HttpError = MissingFile | ChunkRejected(index: nat, reply: string)

  /** Poll intervals of send_at and wait_for_response. */
  const SendAtPollMs: nat := 50
  const WaitPollMs: nat := 100

  /** Minimum gap between signal checks during an FTP upload. */
  const SignalCheckEveryMs: int := 30 * 1000

  /** The transaction send_at runs for a reply to its command. */
  function SendAtReply(script: seq<string>, expected: string, timeoutS: nat): Exchange {
    Await(script, "", expected, 0, timeoutS * 1000, SendAtPollMs)
  }

  /** The transaction wait_for_response runs. */
  function WaitReply(script: seq<string>, expected: string, timeoutS: nat): Exchange {
    Await(script, "", expected, 0, timeoutS * 1000, WaitPollMs)
  }

  /** The part of an exchange a caller can observe (not the poll count). */
  function Observed(x: Exchange): (bool, string, seq<string>, nat) {
    (x.matched, x.text, x.rest, x.waited)
  }

  /** Each command line as a write to the port. */
  function Commands(lines: seq<string>): (r: seq<Wire>)
    ensures |r| == |lines| && forall k :: 0 <= k < |lines| ==> r[k] == Command(lines[k])
  {
    if lines == [] then [] else [Command(lines[0])] + Commands(lines[1..])
  }

  lemma CommandsAppend(a: seq<string>, b: seq<string>)
    ensures Commands(a + b) == Commands(a) + Commands(b)
  {
    assert Commands(a + b) == Commands(a) + Commands(b);
  }

  lemma Append3(l: seq<Wire>, a: Wire, b: Wire, c: Wire)
    ensures l + [a] + [b] + [c] == l + [a, b, c]
  {
  }

  lemma Append4(l: seq<Wire>, a: Wire, b: Wire, c: Wire, d: Wire)
    ensures l + [a] + [b] + [c] + [d] == l + [a, b, c, d]
  {
  }

  /** The writes of a setup that got past the probe, put together. */
  lemma SetupLog(l0: seq<Wire>, start: seq<Wire>, registered: seq<Wire>, final: seq<Wire>, apn: string, polls: nat)
    requires start == l0 + [Command("AT")] + [Command(SignalQuery)] + [Command("AT+CFUN=1")]
    requires registered == start + Commands(Repeat(RegistrationQuery, polls))
    requires final == registered + [Command(BearerSetup(apn)[0])] + [Command(BearerSetup(apn)[1])]
                                 + [Command(BearerSetup(apn)[2])] + [Command(BearerSetup(apn)[3])]
    ensures final == l0 + Commands(["AT", SignalQuery, "AT+CFUN=1"]) + Commands(Repeat(RegistrationQuery, polls))
                        + Commands(BearerSetup(apn))
  {
    var b := BearerSetup(apn);
    assert Commands(["AT", SignalQuery, "AT+CFUN=1"]) == [Command("AT"), Command(SignalQuery), Command("AT+CFUN=1")];
    assert Commands(b) == [Command(b[0]), Command(b[1]), Command(b[2]), Command(b[3])];
    Append3(l0, Command("AT"), Command(SignalQuery), Command("AT+CFUN=1"));
    Append4(registered, Command(b[0]), Command(b[1]), Command(b[2]), Command(b[3]));
  }

  /** n copies of a line. */
  function Repeat(line: string, n: nat): (r: seq<string>)
    ensures |r| == n && forall k :: 0 <= k < n ==> r[k] == line
  {
    if n == 0 then [] else Repeat(line, n - 1) + [line]
  }

  /** One more copy of a command written after n copies. */
  lemma CommandsRepeatSnoc(l: seq<Wire>, line: string, n: nat)
    ensures l + Commands(Repeat(line, n)) + [Command(line)] == l + Commands(Repeat(line, n + 1))
  {
    CommandsAppend(Repeat(line, n), [line]);
  }

  /** The bearer configuration after registration, ending with the address query. */
  function BearerSetup(apn: string): seq<string> {
    [ "AT+SAPBR=3,1,\"Contype\",\"GPRS\"",
      "AT+SAPBR=3,1,\"APN\",\"" + apn + "\"",
      "AT+SAPBR=1,1",
      "AT+SAPBR=2,1" ]
  }

  /** All data written, in order. */
  function Payload(ws: seq<Wire>): Bytes {
    if ws == [] then []
    else Payload(ws[..|ws| - 1]) + (if ws[|ws| - 1].Data? then ws[|ws| - 1].bytes else [])
  }

  lemma PayloadSnoc(ws: seq<Wire>, w: Wire)
    ensures Payload(ws + [w]) == Payload(ws) + (if w.Data? then w.bytes else [])
  {
    assert (ws + [w])[..|ws|] == ws;
  }

  /** The bytes of the acknowledged chunks, in order. */
  function Concat<T>(chunks: seq<seq<T>>): seq<T> {
    if chunks == [] then [] else Concat(chunks[..|chunks| - 1]) + chunks[|chunks| - 1]
  }

  lemma ConcatSnoc<T>(chunks: seq<seq<T>>, c: seq<T>)
    ensures Concat(chunks + [c]) == Concat(chunks) + c
  {
    assert (chunks + [c])[..|chunks|] == chunks;
  }

  /** `l` extends `l0` by writes of one chunk only: `count` announcements
      of its length and copies of its data. */
  predicate ChunkWrites(l0: seq<Wire>, l: seq<Wire>, chunk: Bytes, count: nat) {
    && |l| >= |l0| && l[..|l0|] == l0
    && (forall i :: |l0| <= i < |l| ==> l[i] == Command(Announce(|chunk|)) || l[i] == Data(chunk))
    && multiset(l[|l0|..])[Command(Announce(|chunk|))] == count
  }

  lemma EmptyTail(l: seq<Wire>)
    ensures l[..|l|] == l && l[|l|..] == []
  {
  }

  lemma ChunkWritesSnoc(l0: seq<Wire>, l: seq<Wire>, chunk: Bytes, count: nat, w: Wire)
    requires ChunkWrites(l0, l, chunk, count)
    requires w == Command(Announce(|chunk|)) || w == Data(chunk)
    ensures ChunkWrites(l0, l + [w], chunk, if w.Command? then count + 1 else count)
  {
    assert (l + [w])[|l0|..] == l[|l0|..] + [w];
    assert (l + [w])[..|l0|] == l[..|l0|];
  }

  /** Ten command lines written one after the other. */
  lemma TenCommands(l0: seq<Wire>, lines: seq<string>, l: seq<Wire>)
    requires |lines| == 10
    requires l == l0 + [Command(lines[0])] + [Command(lines[1])] + [Command(lines[2])] + [Command(lines[3])]
                 + [Command(lines[4])] + [Command(lines[5])] + [Command(lines[6])] + [Command(lines[7])]
                 + [Command(lines[8])] + [Command(lines[9])]
    ensures l == l0 + Commands(lines)
  {
    assert |l| == |l0| + 10;
    forall k | 0 <= k < |l|
      ensures l[k] == (l0 + Commands(lines))[k]
    {
      if k >= |l0| {
        assert l[k] == Command(lines[k - |l0|]);
      }
    }
  }

  /** Writes after the first `keep` leave the first `keep` alone. */
  lemma KeepPrefix(l: seq<Wire>, extra: seq<Wire>, keep: nat)
    requires keep <= |l|
    ensures (l + extra)[..keep] == l[..keep]
  {
  }

  /** The first `keep` writes stay as they were. */
  lemma PrefixOfPrefix(before: seq<Wire>, l: seq<Wire>, keep: nat)
    requires keep <= |before| <= |l| && l[..|before|] == before
    ensures l[..keep] == before[..keep]
  {
  }

  /** Later writes keep the session's start. */
  lemma SessionKept(l0: seq<Wire>, start: seq<Wire>, l: seq<Wire>, cfg: seq<string>)
    requires SessionStart(l0, start, cfg) && |start| == |l0| + 11
    requires |l| >= |start| && l[..|start|] == start
    ensures SessionStart(l0, l, cfg)
  {
    SlicePreserved(start, l, |l0|, |l0| + 11);
  }

  /** A slice inside a preserved prefix is preserved. */
  lemma SlicePreserved(l0: seq<Wire>, l: seq<Wire>, a: nat, b: nat)
    requires a <= b <= |l0| <= |l| && l[..|l0|] == l0
    ensures l[a..b] == l0[a..b]
  {
    forall k | a <= k < b ensures l[k] == l0[k] {
      assert l[k] == l[..|l0|][k];
    }
  }

  /** After l0, the session's configuration and its open command were written. */
  predicate SessionStart(l0: seq<Wire>, l: seq<Wire>, cfg: seq<string>) {
    |l| >= |l0| + 11 && |cfg| == 10 && l[|l0|..|l0| + 11] == Commands(cfg + [OpenSession])
  }

  /** The writes of a session's configuration and open command. */
  lemma SessionLog(l0: seq<Wire>, cfg: seq<string>, l: seq<Wire>)
    requires |cfg| == 10 && l == l0 + Commands(cfg) + [Command(OpenSession)]
    ensures |l| == |l0| + 11 && SessionStart(l0, l, cfg)
  {
    CommandsAppend(cfg, [OpenSession]);
    var tail := Commands(cfg) + [Command(OpenSession)];
    Assoc2(l0, Commands(cfg), [Command(OpenSession)]);
    DropFront(l0, tail);
  }

  lemma Assoc2(a: seq<Wire>, b: seq<Wire>, c: seq<Wire>)
    ensures a + b + c == a + (b + c)
  {
  }

  lemma DropFront(a: seq<Wire>, b: seq<Wire>)
    ensures (a + b)[|a|..|a| + |b|] == b
  {
  }

  /** After the configuration and the open command no close has been written. */
  lemma OpenedNoClose(l0: seq<Wire>, cfg: seq<string>)
    requires CloseSession !in cfg
    ensures NoCloseFrom(l0 + Commands(cfg) + [Command(OpenSession)], |l0|)
    ensures ChunksFrom(l0 + Commands(cfg) + [Command(OpenSession)], |l0|, 0)
  {
    var l := l0 + Commands(cfg) + [Command(OpenSession)];
    forall i | |l0| <= i < |l| ensures l[i] != Command(CloseSession) && l[i].Command? {
      if i < |l0| + |cfg| {
        assert l[i] == Commands(cfg)[i - |l0|] == Command(cfg[i - |l0|]);
      }
    }
  }

  /** Writing a command other than the close keeps both write properties. */
  lemma CommandKeeps(l: seq<Wire>, line: string, from: nat, chunksFrom: nat, maxChunk: int)
    requires line != CloseSession
    requires NoCloseFrom(l, from) && ChunksFrom(l, chunksFrom, maxChunk)
    ensures NoCloseFrom(l + [Command(line)], from) && ChunksFrom(l + [Command(line)], chunksFrom, maxChunk)
  {
  }

  lemma CommandChunks(l: seq<Wire>, line: string, from: nat, maxChunk: int)
    requires ChunksFrom(l, from, maxChunk)
    ensures ChunksFrom(l + [Command(line)], from, maxChunk)
  {
  }

  /** Writing a chunk's announcements and data keeps both write properties. */
  lemma ChunkKeeps(l0: seq<Wire>, l: seq<Wire>, chunk: Bytes, count: nat, from: nat, chunksFrom: nat, maxChunk: int)
    requires chunk != [] && (maxChunk >= 0 ==> |chunk| <= maxChunk)
    requires ChunkWrites(l0, l, chunk, count)
    requires NoCloseFrom(l0, from) && ChunksFrom(l0, chunksFrom, maxChunk) && from <= |l0|
    ensures NoCloseFrom(l, from) && ChunksFrom(l, chunksFrom, maxChunk)
  {
    AnnounceNotClose(|chunk|);
    forall i | from <= i < |l| ensures l[i] != Command(CloseSession) {
      if i < |l0| { assert l[i] == l[..|l0|][i]; }
    }
    forall i | chunksFrom <= i < |l| && l[i].Data?
      ensures l[i].bytes != [] && (maxChunk >= 0 ==> |l[i].bytes| <= maxChunk)
    {
      if i < |l0| { assert l[i] == l[..|l0|][i]; }
    }
  }

  /** The acknowledged chunks are exactly the file from the resume offset to `sent`. */
  predicate Acked(data: Bytes, resumeFrom: nat, sent: nat, acked: seq<Bytes>) {
    resumeFrom <= sent <= |data| && Concat(acked) == data[resumeFrom..sent]
  }

  lemma AckedNone(data: Bytes, resumeFrom: nat)
    requires resumeFrom <= |data|
    ensures Acked(data, resumeFrom, resumeFrom, [])
  {
    assert data[resumeFrom..resumeFrom] == [];
  }

  lemma AckedSnoc(data: Bytes, resumeFrom: nat, sent: nat, acked: seq<Bytes>, chunk: Bytes)
    requires Acked(data, resumeFrom, sent, acked)
    requires sent + |chunk| <= |data| && chunk == data[sent..sent + |chunk|]
    ensures Acked(data, resumeFrom, sent + |chunk|, acked + [chunk])
  {
    ConcatSnoc(acked, chunk);
    assert data[resumeFrom..sent + |chunk|] == data[resumeFrom..sent] + data[sent..sent + |chunk|];
  }

  /** What the transfer loop writes: it keeps what was written before,
      writes no close command, and every data write is a chunk in bounds. */
  predicate StreamWrites(l0: seq<Wire>, l: seq<Wire>, from: nat, maxChunk: int) {
    && |l| >= |l0| && l[..|l0|] == l0
    && NoCloseFrom(l, from) && ChunksFrom(l, |l0|, maxChunk)
  }

  lemma StreamCommand(l0: seq<Wire>, l: seq<Wire>, from: nat, maxChunk: int, line: string)
    requires StreamWrites(l0, l, from, maxChunk) && line != CloseSession
    ensures StreamWrites(l0, l + [Command(line)], from, maxChunk)
  {
    CommandKeeps(l, line, from, |l0|, maxChunk);
    KeepPrefix(l, [Command(line)], |l0|);
  }

  lemma StreamChunk(l0: seq<Wire>, before: seq<Wire>, l: seq<Wire>, from: nat, maxChunk: int, chunk: Bytes, count: nat)
    requires StreamWrites(l0, before, from, maxChunk) && from <= |before|
    requires chunk != [] && (maxChunk >= 0 ==> |chunk| <= maxChunk)
    requires ChunkWrites(before, l, chunk, count)
    ensures StreamWrites(l0, l, from, maxChunk)
  {
    ChunkKeeps(before, l, chunk, count, from, |l0|, maxChunk);
    PrefixOfPrefix(before, l, |l0|);
  }

  /** What the periodic signal check writes. */
  function SignalCheckWrites(due: bool): seq<Wire> {
    if due then [Command(SignalQuery)] else []
  }

  lemma StreamSignal(l0: seq<Wire>, l: seq<Wire>, from: nat, maxChunk: int, due: bool)
    requires StreamWrites(l0, l, from, maxChunk)
    ensures StreamWrites(l0, l + SignalCheckWrites(due), from, maxChunk)
  {
    if due {
      StreamCommand(l0, l, from, maxChunk, SignalQuery);
    } else {
      assert l + [] == l;
    }
  }

  /** The chunks successive reads of at most n bytes return from `pos`
      until a read returns nothing: non-empty, all but the last of exactly
      n bytes when n is positive, the whole rest in one chunk when n is
      negative, none when n is zero. */
  function Pieces<T>(data: seq<T>, pos: nat, n: int): (r: seq<seq<T>>)
    requires pos <= |data|
    ensures forall k :: 0 <= k < |r| ==> r[k] != [] && (n >= 0 ==> |r[k]| <= n)
    ensures n > 0 ==> forall k :: 0 <= k < |r| - 1 ==> |r[k]| == n
    ensures n < 0 ==> |r| <= 1
    ensures n == 0 ==> r == []
    decreases |data| - pos
  {
    var k := ReadLength(|data| - pos, n);
    if k == 0 then [] else [data[pos..pos + k]] + Pieces(data, pos + k, n)
  }

  lemma {:induction false} ConcatCons<T>(c: seq<T>, rest: seq<seq<T>>)
    ensures Concat([c] + rest) == c + Concat(rest)
    decreases |rest|
  {
    if rest == [] {
      assert [c] + rest == [c];
      assert Concat([c]) == Concat([]) + c;
    } else {
      var init := rest[..|rest| - 1];
      assert ([c] + rest)[..|rest|] == [c] + init;
      ConcatCons(c, init);
    }
  }

  /** One read: a non-empty chunk comes first, an empty one ends the chunks. */
  lemma PiecesStep<T>(data: seq<T>, pos: nat, n: int)
    requires pos <= |data|
    ensures var c := Read(data, pos, n);
      && (c == [] ==> Pieces(data, pos, n) == [] && (n != 0 ==> pos == |data|))
      && (c != [] ==> Pieces(data, pos, n) == [c] + Pieces(data, pos + |c|, n))
  {
  }

  lemma SnocBefore<T>(a: seq<T>, c: T, b: seq<T>)
    ensures a + ([c] + b) == (a + [c]) + b
  {
  }

  /** Before the first read of the upload loop nothing is posted. */
  lemma UploadStart<T>(data: seq<T>, n: int, l: seq<Wire>, url: string)
    ensures Pieces(data, 0, n) == [] + Pieces(data, 0, n)
    ensures l == l + HttpRounds(url, [])
  {
    assert HttpRounds(url, []) == [];
  }

  lemma PrefixOfAppend<T>(a: seq<T>, b: seq<T>)
    ensures a <= a + b
  {
  }

  lemma PrefixOfSelf<T>(a: seq<T>)
    ensures a <= a
  {
  }

  lemma CoverEnd<T>(data: seq<T>, whole: seq<seq<T>>)
    requires whole == []
    ensures Concat(whole) == data[|data|..]
  {
  }

  lemma CoverStep<T>(data: seq<T>, pos: nat, c: seq<T>, rest: seq<seq<T>>, whole: seq<seq<T>>)
    requires pos + |c| <= |data| && c == data[pos..pos + |c|]
    requires Concat(rest) == data[pos + |c|..] && whole == [c] + rest
    ensures Concat(whole) == data[pos..]
  {
    ConcatCons(c, rest);
    assert data[pos..] == data[pos..pos + |c|] + data[pos + |c|..];
  }

  /** The chunks put back together are the file from `pos` on, whenever the
      chunk size is not zero. */
  lemma {:induction false} PiecesCover<T>(data: seq<T>, pos: nat, n: int)
    requires pos <= |data| && n != 0
    ensures Concat(Pieces(data, pos, n)) == data[pos..]
    decreases |data| - pos
  {
    var k := ReadLength(|data| - pos, n);
    if k == 0 {
      CoverEnd(data, Pieces(data, pos, n));
    } else {
      PiecesCover(data, pos + k, n);
      CoverStep(data, pos, data[pos..pos + k], Pieces(data, pos + k, n), Pieces(data, pos, n));
    }
  }

  /** The commands of one HTTP POST of upload_file. */
  const HttpInit: string := "AT+HTTPINIT"
  const HttpContent: string := "AT+HTTPPARA=\"CONTENT\",\"application/octet-stream\""
  const HttpAction: string := "AT+HTTPACTION=1"
  const HttpTerm: string := "AT+HTTPTERM"

  function HttpUrl(url: string): string {
    "AT+HTTPPARA=\"URL\",\"" + url + "\""
  }

  function HttpData(len: nat): string {
    "AT+HTTPDATA=" + ShowNat(len) + ",10000"
  }

  /** What one POST writes: a fresh session for the URL, the announced
      length, the chunk, the action and the end of the session. */
  function HttpRound(url: string, chunk: Bytes): seq<Wire> {
    [Command(HttpInit), Command(HttpUrl(url)), Command(HttpContent), Command(HttpData(|chunk|)),
     Data(chunk), Command(HttpAction), Command(HttpTerm)]
  }

  /** The writes of the POSTs of the given chunks, in order. */
  function HttpRounds(url: string, chunks: seq<Bytes>): seq<Wire> {
    if chunks == [] then [] else HttpRounds(url, chunks[..|chunks| - 1]) + HttpRound(url, chunks[|chunks| - 1])
  }

  lemma PayloadAppend(a: seq<Wire>, b: seq<Wire>)
    ensures Payload(a + b) == Payload(a) + Payload(b)
    decreases |b|
  {
    if b == [] {
      assert a + b == a;
    } else {
      var init := b[..|b| - 1];
      assert (a + b)[..|a + b| - 1] == a + init;
      PayloadAppend(a, init);
    }
  }

  lemma PayloadCommands(lines: seq<string>)
    ensures Payload(Commands(lines)) == []
    decreases |lines|
  {
    if lines != [] {
      var init := lines[..|lines| - 1];
      assert Commands(lines)[..|lines| - 1] == Commands(init);
      PayloadCommands(init);
    }
  }

  lemma PayloadRound(url: string, chunk: Bytes)
    ensures Payload(HttpRound(url, chunk)) == chunk
  {
    var a := Commands([HttpInit, HttpUrl(url), HttpContent, HttpData(|chunk|)]);
    var b := Commands([HttpAction, HttpTerm]);
    assert HttpRound(url, chunk) == (a + [Data(chunk)]) + b;
    PayloadAppend(a + [Data(chunk)], b);
    PayloadSnoc(a, Data(chunk));
    PayloadCommands([HttpInit, HttpUrl(url), HttpContent, HttpData(|chunk|)]);
    PayloadCommands([HttpAction, HttpTerm]);
  }

  /** The data written by the POSTs of some chunks is those chunks, joined. */
  lemma {:induction false} HttpPayload(url: string, chunks: seq<Bytes>)
    ensures Payload(HttpRounds(url, chunks)) == Concat(chunks)
    decreases |chunks|
  {
    if chunks != [] {
      var init := chunks[..|chunks| - 1];
      HttpPayload(url, init);
      PayloadAppend(HttpRounds(url, init), HttpRound(url, chunks[|chunks| - 1]));
      PayloadRound(url, chunks[|chunks| - 1]);
    }
  }

  /** A completed HTTP upload writes exactly the file's bytes as data,
      whatever non-zero chunk size it used. */
  lemma HttpUploadPayload(url: string, data: Bytes, n: int)
    requires n != 0
    ensures Payload(HttpRounds(url, Pieces(data, 0, n))) == data
  {
    HttpPayload(url, Pieces(data, 0, n));
    PiecesCover(data, 0, n);
  }

  lemma HttpRoundOf(before: seq<Wire>, l: seq<Wire>, url: string, chunk: Bytes)
    requires l == before + [Command(HttpInit)] + [Command(HttpUrl(url))] + [Command(HttpContent)]
                  + [Command(HttpData(|chunk|))] + [Data(chunk)] + [Command(HttpAction)] + [Command(HttpTerm)]
    ensures l == before + HttpRound(url, chunk)
  {
  }

  /** One more POST after those of `posted`. */
  lemma HttpRoundsSnoc(l0: seq<Wire>, url: string, posted: seq<Bytes>, chunk: Bytes)
    ensures l0 + HttpRounds(url, posted) + HttpRound(url, chunk) == l0 + HttpRounds(url, posted + [chunk])
  {
    assert (posted + [chunk])[..|posted|] == posted;
  }

  /** The close command as the last write, after none. */
  predicate ClosedOnce(l: seq<Wire>, from: nat) {
    |l| > from && l[|l| - 1] == Command(CloseSession) && NoCloseFrom(l[..|l| - 1], from)
  }

  lemma ClosedOnceOf(l: seq<Wire>, from: nat)
    requires NoCloseFrom(l, from) && from <= |l|
    ensures ClosedOnce(l + [Command(CloseSession)], from)
  {
    assert (l + [Command(CloseSession)])[..|l|] == l;
  }

  /** The close command does not occur among the writes from `from` on. */
  predicate NoCloseFrom(log: seq<Wire>, from: nat) {
    forall i :: from <= i < |log| ==> log[i] != Command(CloseSession)
  }

  /** Every data write from `from` on is a non-empty chunk within the working chunk size. */
  predicate ChunksFrom(log: seq<Wire>, from: nat, maxChunk: int) {
    forall i :: from <= i < |log| && log[i].Data? ==>
      log[i].bytes != [] && (maxChunk >= 0 ==> |log[i].bytes| <= maxChunk)
  }

  /** The serial line as far as the handler's decisions depend on it: what
      the port will deliver, poll by poll, and the milliseconds slept so far. */
  datatype Line = Line(script: seq<string>, clock: nat)

  /** send_at's transaction on the line: whether the expected token came,
      the response, and the line after it. */
  function SendAtOn(s: Line, expected: string, timeoutS: nat): (bool, string, Line) {
    var x := SendAtReply(s.script, expected, timeoutS);
    (x.matched, x.text, Line(x.rest, s.clock + x.waited))
  }

  /** wait_for_response's transaction on the line. */
  function WaitOn(s: Line, expected: string, timeoutS: nat): (bool, string, Line) {
    var x := WaitReply(s.script, expected, timeoutS);
    (x.matched, x.text, Line(x.rest, s.clock + x.waited))
  }

  function Sleep(s: Line, ms: nat): Line {
    s.(clock := s.clock + ms)
  }

  /** The line after n send_at calls with the defaults (OK within 5 s)
      whose answers are ignored. */
  function Issued(s: Line, n: nat): Line {
    if n == 0 then s else SendAtOn(Issued(s, n - 1), "OK", 5).2
  }

  /** A registration reply: home (`,1`) or roaming (`,5`). */
  predicate Registered(reply: string) {
    Contains(reply, ",1") || Contains(reply, ",5")
  }

  /** The registration loop of setup_network from its i-th poll: the number
      of `AT+CREG?` polls made, and the line after them. */
  function Registration(s: Line, i: nat): (nat, Line)
    requires i <= 10
    decreases 10 - i
  {
    if i == 10 then (10, s)
    else
      var q := SendAtOn(s, "OK", 2);
      if Registered(q.1) then (i + 1, q.2) else Registration(Sleep(q.2, 2000), i + 1)
  }

  /** What setup_network makes of the line: its outcome, the number of
      registration polls and the line after it. */
  datatype NetRun = NetRun(r: Outcome<string, NetError>, polls: nat, line: Line)

  function NetworkSetup(s: Line): NetRun {
    var probe := SendAtOn(s, "OK", 2);
    if !probe.0 then NetRun(Failure(ModemNotResponding), 0, probe.2)
    else
      var reg := Registration(Issued(probe.2, 2), 0);
      var address := SendAtOn(SendAtOn(Issued(reg.1, 2), "OK", 10).2, "OK", 5);
      NetRun(if Contains(address.1, "0.0.0.0") then Failure(NoIpAddress) else Success(address.1), reg.0, address.2)
  }

  /** The line before the k-th registration poll, when none of the earlier
      polls saw a registration. */
  function PollLine(s: Line, k: nat): Line {
    if k == 0 then s else Sleep(SendAtOn(PollLine(s, k - 1), "OK", 2).2, 2000)
  }

  /** The reply to the k-th registration poll. */
  function PollReply(s: Line, k: nat): string {
    SendAtOn(PollLine(s, k), "OK", 2).1
  }

  /** One more unregistered poll. */
  lemma UnregisteredThrough(s: Line, i: nat)
    requires forall k :: 0 <= k < i ==> !Registered(PollReply(s, k))
    requires !Registered(PollReply(s, i))
    ensures forall k :: 0 <= k < i + 1 ==> !Registered(PollReply(s, k))
  {
  }

  /** The registration loop from its i-th poll, on the line `t` that
      poll finds. */
  lemma {:induction false} RegistrationFrom(s: Line, t: Line, i: nat)
    requires i < 10 && t == PollLine(s, i)
    requires forall k :: 0 <= k < i ==> !Registered(PollReply(s, k))
    ensures var p := Registration(t, i);
      && i < p.0 <= 10
      && (forall k :: 0 <= k < p.0 - 1 ==> !Registered(PollReply(s, k)))
      && (p.0 < 10 ==> Registered(PollReply(s, p.0 - 1)))
    decreases 10 - i
  {
    var q := SendAtOn(t, "OK", 2);
    assert q.1 == PollReply(s, i);
    if !Registered(q.1) && i + 1 < 10 {
      var next := Sleep(q.2, 2000);
      assert next == PollLine(s, i + 1);
      UnregisteredThrough(s, i);
      RegistrationFrom(s, next, i + 1);
    }
  }

  /** The registration loop stops at the first poll whose reply shows a home
      or roaming registration, and makes all ten polls when none does: the
      polls before the last were unregistered, and the last was registered
      unless all ten were made. */
  lemma RegistrationStops(s: Line)
    ensures var p := Registration(s, 0).0;
      && 1 <= p <= 10
      && (forall k :: 0 <= k < p - 1 ==> !Registered(PollReply(s, k)))
      && (p < 10 ==> Registered(PollReply(s, p - 1)))
  {
    RegistrationFrom(s, s, 0);
  }

  /** On a port that never answers, the line stays silent through ignored commands. */
  lemma {:induction false} SilentIssued(s: Line, n: nat)
    requires Silent(s.script)
    ensures Silent(Issued(s, n).script)
  {
    if n > 0 {
      SilentIssued(s, n - 1);
      SilentAwait(Issued(s, n - 1).script, "", "OK", 0, 5000, SendAtPollMs);
    }
  }

  /** setup_network against a modem that never answers fails at the probe. */
  lemma SilentNetwork(s: Line)
    requires Silent(s.script)
    ensures NetworkSetup(s).r == Failure(ModemNotResponding)
  {
    SilentAwait(s.script, "", "OK", 0, 2000, SendAtPollMs);
  }

  /** A transaction reports a match only when its response holds the expected token. */
  lemma MatchedHolds(script: seq<string>, expected: string, limit: nat, step: nat)
    requires step > 0
    ensures var x := Await(script, "", expected, 0, limit, step);
      x.matched ==> Contains(x.text, expected)
  {
    AwaitSpec(script, "", expected, 0, limit, step);
  }

  /** One attempt of upload_ftp's retry loop: wait 15 s for the
      `+FTPPUT: 2,` prompt and, once it came (and the data was written),
      15 s for OK. Whether it was prompted, whether it was accepted, and the
      line after it. */
  function ChunkAttempt(s: Line): (bool, bool, Line) {
    var p := WaitOn(s, "+FTPPUT: 2,", 15);
    if !p.0 then (false, false, p.2)
    else
      var o := WaitOn(p.2, "OK", 15);
      (true, o.0, o.2)
  }

  /** A chunk is accepted only after both the prompt and the OK arrived. */
  lemma ChunkAcceptedOnReplies(s: Line)
    ensures ChunkAttempt(s).1 ==>
      var p := WaitOn(s, "+FTPPUT: 2,", 15);
      Contains(p.1, "+FTPPUT: 2,") && Contains(WaitOn(p.2, "OK", 15).1, "OK")
  {
    var p := WaitOn(s, "+FTPPUT: 2,", 15);
    MatchedHolds(s.script, "+FTPPUT: 2,", 15000, WaitPollMs);
    MatchedHolds(p.2.script, "OK", 15000, WaitPollMs);
  }

  /** The retry loop for one chunk from attempt number `attempt`: whether
      the chunk was accepted, how many attempts were made in all, and the
      line after them. The delay follows every failed attempt but the last. */
  function ChunkRetries(s: Line, attempt: nat, maxRetries: int, delayMs: nat): (bool, nat, Line)
    decreases maxRetries - attempt
  {
    if attempt >= maxRetries then (false, attempt, s)
    else
      var a := ChunkAttempt(s);
      if a.1 then (true, attempt + 1, a.2)
      else ChunkRetries(Sleep(a.2, if attempt < maxRetries - 1 then delayMs else 0), attempt + 1, maxRetries, delayMs)
  }

  /** On a port that never answers, no chunk is accepted and the port stays silent. */
  lemma {:induction false} SilentChunk(s: Line, attempt: nat, maxRetries: int, delayMs: nat)
    requires Silent(s.script)
    ensures var c := ChunkRetries(s, attempt, maxRetries, delayMs); !c.0 && Silent(c.2.script)
    decreases maxRetries - attempt
  {
    if attempt < maxRetries {
      SilentAwait(s.script, "", "+FTPPUT: 2,", 0, 15000, WaitPollMs);
      var a := ChunkAttempt(s);
      SilentChunk(Sleep(a.2, if attempt < maxRetries - 1 then delayMs else 0), attempt + 1, maxRetries, delayMs);
    }
  }

  /** Where the transfer loop ends: whether it went through the file, the
      offset it reached, and the line. */
  datatype StreamEnd = StreamEnd(complete: bool, sent: nat, line: Line)

  /** The transfer loop of upload_ftp from offset `sent`, the signal last
      checked at `lastCheck`: check the signal when more than 30 s have
      passed, read a chunk of at most maxChunk bytes, stop on an empty one,
      and send it with retries, stopping on a chunk that is not accepted. */
  function Stream(s: Line, lastCheck: int, data: Bytes, sent: nat, maxChunk: int, maxRetries: int, delayMs: nat): StreamEnd
    requires sent <= |data|
    decreases |data| - sent
  {
    if sent == |data| then StreamEnd(true, sent, s)
    else
      var due := s.clock - lastCheck > SignalCheckEveryMs;
      var s1 := if due then SendAtOn(s, "OK", 2).2 else s;
      var chunk := Read(data, sent, maxChunk);
      if chunk == [] then StreamEnd(true, sent, s1)
      else
        var c := ChunkRetries(s1, 0, maxRetries, delayMs);
        if !c.0 then StreamEnd(false, sent, c.2)
        else Stream(c.2, if due then s1.clock else lastCheck, data, sent + |chunk|, maxChunk, maxRetries, delayMs)
  }

  /** One round of the transfer loop, with `s1` the line after the
      signal check, `chunk` the chunk read and `c` its retries. */
  lemma StreamUnfold(s: Line, lastCheck: int, data: Bytes, sent: nat, maxChunk: int, maxRetries: int, delayMs: nat,
                     s1: Line, checkedAt: int, chunk: Bytes, c: (bool, nat, Line))
    requires sent < |data|
    requires s1 == if s.clock - lastCheck > SignalCheckEveryMs then SendAtOn(s, "OK", 2).2 else s
    requires checkedAt == if s.clock - lastCheck > SignalCheckEveryMs then s1.clock else lastCheck
    requires chunk == Read(data, sent, maxChunk) && c == ChunkRetries(s1, 0, maxRetries, delayMs)
    ensures chunk == [] ==> Stream(s, lastCheck, data, sent, maxChunk, maxRetries, delayMs) == StreamEnd(true, sent, s1)
    ensures chunk != [] && !c.0 ==> Stream(s, lastCheck, data, sent, maxChunk, maxRetries, delayMs) == StreamEnd(false, sent, c.2)
    ensures chunk != [] && c.0 ==> Stream(s, lastCheck, data, sent, maxChunk, maxRetries, delayMs)
                                   == Stream(c.2, checkedAt, data, sent + |chunk|, maxChunk, maxRetries, delayMs)
  {
  }

  /** One round of the transfer loop, from a state of it to the next one
      or to the end of the run. */
  lemma StreamedStep(e: StreamEnd, s: Line, lastCheck: int, data: Bytes, resumeFrom: nat, sent: nat,
                     acked: seq<Bytes>, maxChunk: int, maxRetries: int, delayMs: nat, l0: seq<Wire>,
                     log: seq<Wire>, from: nat, s1: Line, checkedAt: int, chunk: Bytes, go: bool, s2: Line,
                     log2: seq<Wire>)
    requires sent < |data|
    requires StreamingAt(e, s, lastCheck, data, resumeFrom, sent, acked, maxChunk, maxRetries, delayMs, l0, log, from)
    requires var due := s.clock - lastCheck > SignalCheckEveryMs;
      s1 == (if due then SendAtOn(s, "OK", 2).2 else s) && checkedAt == if due then s1.clock else lastCheck
    requires chunk == Read(data, sent, maxChunk)
    requires chunk != [] ==> var c := ChunkRetries(s1, 0, maxRetries, delayMs); go == c.0 && s2 == c.2
    requires chunk == [] ==> !go && s2 == s1
    requires StreamWrites(l0, log2, from, maxChunk)
    ensures go ==> StreamingAt(e, s2, checkedAt, data, resumeFrom, sent + |chunk|, acked + [chunk], maxChunk,
                               maxRetries, delayMs, l0, log2, from)
    ensures !go ==> e == StreamEnd(chunk == [], sent, s2) && Acked(data, resumeFrom, sent, acked)
  {
    StreamUnfold(s, lastCheck, data, sent, maxChunk, maxRetries, delayMs, s1, checkedAt, chunk,
                 ChunkRetries(s1, 0, maxRetries, delayMs));
    if go {
      AckedSnoc(data, resumeFrom, sent, acked, chunk);
    }
  }

  /** The state of the transfer loop after the chunks `acked` were sent:
      `sent` bytes delivered, the stream log kept, and the run still to
      come from `line` leading to `e`, the run of the whole loop. */
  ghost predicate StreamingAt(e: StreamEnd, line: Line, lastCheck: int, data: Bytes, resumeFrom: nat, sent: nat,
                              acked: seq<Bytes>, maxChunk: int, maxRetries: int, delayMs: nat,
                              l0: seq<Wire>, log: seq<Wire>, from: nat)
  {
    && Acked(data, resumeFrom, sent, acked) && StreamWrites(l0, log, from, maxChunk)
    && e == Stream(line, lastCheck, data, sent, maxChunk, maxRetries, delayMs)
  }


  /** Against a port that never answers, the transfer loop gets no chunk
      accepted: it stops where it started, failed unless there was nothing
      to send. */
  lemma SilentStream(s: Line, lastCheck: int, data: Bytes, sent: nat, maxChunk: int, maxRetries: int, delayMs: nat)
    requires sent <= |data| && Silent(s.script)
    ensures var e := Stream(s, lastCheck, data, sent, maxChunk, maxRetries, delayMs);
      e.sent == sent && (e.complete <==> sent == |data| || maxChunk == 0)
  {
    if sent < |data| {
      var due := s.clock - lastCheck > SignalCheckEveryMs;
      SilentAwait(s.script, "", "OK", 0, 2000, SendAtPollMs);
      var s1 := if due then SendAtOn(s, "OK", 2).2 else s;
      SilentChunk(s1, 0, maxRetries, delayMs);
    }
  }

  /** A working chunk size of zero reads nothing: the transfer loop ends at
      once as complete, at the offset it started from, whatever is left. */
  lemma ZeroChunkStreamsNothing(s: Line, lastCheck: int, data: Bytes, sent: nat, maxRetries: int, delayMs: nat)
    requires sent <= |data|
    ensures var e := Stream(s, lastCheck, data, sent, 0, maxRetries, delayMs);
      e.complete && e.sent == sent
  {
  }

  /** The close of upload_ftp: after 0.5 s the zero-length chunk is
      announced (OK within 5 s), then `+FTPPUT: 1,0` is awaited for 30 s. */
  function CloseOn(s: Line): (bool, string, Line) {
    WaitOn(SendAtOn(Sleep(s, 500), "OK", 5).2, "+FTPPUT: 1,0", 30)
  }

  /** What upload_ftp makes of the line: its outcome, the resume offset,
      the offset reached, the working chunk size and the line after it. */
  datatype FtpRun = FtpRun(r: Outcome<(), FtpError>, resumeFrom: nat, sent: nat, maxChunk: int, line: Line)

  /** upload_ftp once the session is open: the transfer loop, then the
      close when it went through. */
  function Finish(s: Line, data: Bytes, resumeFrom: nat, maxChunk: int, maxRetries: int, delayMs: nat): FtpRun
    requires resumeFrom <= |data|
  {
    var e := Stream(s, s.clock, data, resumeFrom, maxChunk, maxRetries, delayMs);
    if !e.complete then FtpRun(Failure(ChunkFailed(e.sent, maxRetries)), resumeFrom, e.sent, maxChunk, e.line)
    else
      var c := CloseOn(e.line);
      FtpRun(if c.0 then Success(()) else Failure(CloseUnconfirmed(c.1)), resumeFrom, e.sent, maxChunk, c.2)
  }

  /** upload_ftp from the session on: the ten configuration commands and
      the open, answered `+FTPPUT: 1,1` within 60 s, then `Finish`. */
  function SessionRun(s: Line, data: Bytes, resumeFrom: nat, chunkSize: int, maxRetries: int, retryDelayS: nat): FtpRun
    requires resumeFrom <= |data|
  {
    var o := WaitOn(Issued(s, 10), "+FTPPUT: 1,1", 60);
    if !o.0 then FtpRun(Failure(SessionNotOpened(o.1)), resumeFrom, resumeFrom, 0, o.2)
    else Finish(o.2, data, resumeFrom, WorkingChunk(o.1, chunkSize), maxRetries, retryDelayS * 1000)
  }

  function FtpUpload(s: Line, record: Option<Progress>, chunkSize: int, path: string, file: Option<Bytes>,
                     maxRetries: int, retryDelayS: nat): FtpRun
  {
    if file.None? then FtpRun(Failure(FileNotFound(path)), 0, 0, 0, s)
    else SessionRun(s, file.value, ResumeFrom(record, path, s.clock, |file.value|).0, chunkSize, maxRetries, retryDelayS)
  }

  /** The progress file after upload_ftp: cleared by a success, saved at
      bytes_sent when a chunk or the close failed, untouched when the file
      was missing or the session did not open. */
  function ProgressAfter(run: FtpRun, record: Option<Progress>, path: string): Option<Progress> {
    match run.r
    case Success(_) => None
    case Failure(e) =>
      if e.ChunkFailed? || e.CloseUnconfirmed? then Some(Progress(path, run.sent, run.line.clock)) else record
  }

  /** One read of the chunk loop of upload_file. */
  lemma HttpPostsStep(s: Line, data: Bytes, pos: nat, n: int, index: nat)
    requires pos <= |data|
    ensures Read(data, pos, n) == [] ==> HttpPosts(s, data, pos, n, index) == HttpRun(Success(()), index, s)
    ensures Read(data, pos, n) != [] && !PostOn(s).0 ==>
      HttpPosts(s, data, pos, n, index) == HttpRun(Failure(ChunkRejected(index, PostOn(s).1)), index + 1, PostOn(s).2)
    ensures Read(data, pos, n) != [] && PostOn(s).0 ==>
      HttpPosts(s, data, pos, n, index) == HttpPosts(PostOn(s).2, data, pos + |Read(data, pos, n)|, n, index + 1)
  {
  }
  /** One accepted or rejected chunk of the upload loop, seen from the
      chunks posted so far and the run of the whole loop. */
  lemma PostedStep(s: Line, data: Bytes, pos: nat, n: int, index: nat, whole: seq<Bytes>, posted: seq<Bytes>,
                   ok: bool, reply: string, s2: Line)
    requires pos <= |data| && whole == posted + Pieces(data, pos, n)
    requires Read(data, pos, n) != [] && (ok, reply, s2) == PostOn(s)
    ensures var c := Read(data, pos, n);
      && whole == (posted + [c]) + Pieces(data, pos + |c|, n) && posted + [c] <= whole
      && (ok ==> HttpPosts(s, data, pos, n, index) == HttpPosts(s2, data, pos + |c|, n, index + 1))
      && (!ok ==> HttpPosts(s, data, pos, n, index) == HttpRun(Failure(ChunkRejected(index, reply)), index + 1, s2))
  {
    var c := Read(data, pos, n);
    HttpPostsStep(s, data, pos, n, index);
    PiecesStep(data, pos, n);
    SnocBefore(posted, c, Pieces(data, pos + |c|, n));
    PrefixOfAppend(posted + [c], Pieces(data, pos + |c|, n));
  }


  /** upload_ftp succeeds only when the session opened with `+FTPPUT: 1,1`,
      the transfer loop went through, and the close was confirmed with
      `+FTPPUT: 1,0`. */
  lemma UploadConfirmed(s: Line, record: Option<Progress>, chunkSize: int, path: string, file: Option<Bytes>,
                        maxRetries: int, retryDelayS: nat)
    ensures FtpUpload(s, record, chunkSize, path, file, maxRetries, retryDelayS).r.Success? ==>
      && file.Some?
      && var o := WaitOn(Issued(s, 10), "+FTPPUT: 1,1", 60);
      && Contains(o.1, "+FTPPUT: 1,1")
      && var resumeFrom := ResumeFrom(record, path, s.clock, |file.value|).0;
      && var e := Stream(o.2, o.2.clock, file.value, resumeFrom, WorkingChunk(o.1, chunkSize), maxRetries, retryDelayS * 1000);
      && e.complete
      && Contains(CloseOn(e.line).1, "+FTPPUT: 1,0")
  {
    if file.Some? {
      var o := WaitOn(Issued(s, 10), "+FTPPUT: 1,1", 60);
      MatchedHolds(Issued(s, 10).script, "+FTPPUT: 1,1", 60000, WaitPollMs);
      var resumeFrom := ResumeFrom(record, path, s.clock, |file.value|).0;
      var e := Stream(o.2, o.2.clock, file.value, resumeFrom, WorkingChunk(o.1, chunkSize), maxRetries, retryDelayS * 1000);
      MatchedHolds(SendAtOn(Sleep(e.line, 500), "OK", 5).2.script, "+FTPPUT: 1,0", 30000, WaitPollMs);
    }
  }

  /** Against a modem that never answers, upload_ftp of an existing file
      fails at the open with an empty reply. */
  lemma SilentUpload(s: Line, record: Option<Progress>, chunkSize: int, path: string, file: Option<Bytes>,
                     maxRetries: int, retryDelayS: nat)
    requires Silent(s.script) && file.Some?
    ensures FtpUpload(s, record, chunkSize, path, file, maxRetries, retryDelayS).r == Failure(SessionNotOpened(""))
  {
    SilentIssued(s, 10);
    SilentAwait(Issued(s, 10).script, "", "+FTPPUT: 1,1", 0, 60000, WaitPollMs);
  }

  /** One POST of upload_file: three commands whose answers are ignored,
      0.5 s before the data, the action (accepted on `+HTTPACTION: 1,200`
      within 30 s) and the terminating command. */
  function PostOn(s: Line): (bool, string, Line) {
    var a := SendAtOn(Sleep(Issued(s, 3), 500), "+HTTPACTION: 1,200", 30);
    (a.0, a.1, Issued(a.2, 1))
  }

  /** What the chunk loop of upload_file makes of the line from offset
      `pos`, `index` chunks posted before: its outcome, the chunks posted,
      and the line after it. */
  datatype HttpRun = HttpRun(r: Outcome<(), HttpError>, posted: nat, line: Line)

  function HttpPosts(s: Line, data: Bytes, pos: nat, n: int, index: nat): HttpRun
    requires pos <= |data|
    decreases |data| - pos
  {
    var chunk := Read(data, pos, n);
    if chunk == [] then HttpRun(Success(()), index, s)
    else
      var p := PostOn(s);
      if !p.0 then HttpRun(Failure(ChunkRejected(index, p.1)), index + 1, p.2)
      else HttpPosts(p.2, data, pos + |chunk|, n, index + 1)
  }

  /** A POST counts as accepted only when its reply holds `+HTTPACTION: 1,200`. */
  lemma PostAcceptedOnReply(s: Line)
    ensures PostOn(s).0 ==> Contains(PostOn(s).1, "+HTTPACTION: 1,200")
  {
    MatchedHolds(Sleep(Issued(s, 3), 500).script, "+HTTPACTION: 1,200", 30000, SendAtPollMs);
  }

  /** Against a modem that never answers, a file with anything to read is
      rejected at its first chunk with an empty reply. */
  lemma SilentPost(s: Line, data: Bytes, n: int)
    requires Silent(s.script) && Read(data, 0, n) != []
    ensures HttpPosts(s, data, 0, n, 0).r == Failure(ChunkRejected(0, ""))
  {
    SilentIssued(s, 3);
    SilentAwait(Sleep(Issued(s, 3), 500).script, "", "+HTTPACTION: 1,200", 0, 30000, SendAtPollMs);
  }

  /** Time on the line only moves forward: through ignored commands, */
  lemma {:induction false} IssuedLater(s: Line, n: nat)
    ensures Issued(s, n).clock >= s.clock
  {
    if n > 0 {
      IssuedLater(s, n - 1);
    }
  }

  /** through the registration loop, */
  lemma {:induction false} RegistrationLater(s: Line, i: nat)
    requires i <= 10
    ensures Registration(s, i).1.clock >= s.clock
    decreases 10 - i
  {
    if i < 10 {
      var q := SendAtOn(s, "OK", 2);
      if !Registered(q.1) {
        RegistrationLater(Sleep(q.2, 2000), i + 1);
      }
    }
  }

  /** through setup_network, */
  lemma NetworkLater(s: Line)
    ensures NetworkSetup(s).line.clock >= s.clock
  {
    var probe := SendAtOn(s, "OK", 2);
    if probe.0 {
      IssuedLater(probe.2, 2);
      var reg := Registration(Issued(probe.2, 2), 0);
      RegistrationLater(Issued(probe.2, 2), 0);
      IssuedLater(reg.1, 2);
    }
  }

  /** through the retries of a chunk, */
  lemma {:induction false} RetriesLater(s: Line, attempt: nat, maxRetries: int, delayMs: nat)
    ensures ChunkRetries(s, attempt, maxRetries, delayMs).2.clock >= s.clock
    decreases maxRetries - attempt
  {
    if attempt < maxRetries {
      var a := ChunkAttempt(s);
      if !a.1 {
        RetriesLater(Sleep(a.2, if attempt < maxRetries - 1 then delayMs else 0), attempt + 1, maxRetries, delayMs);
      }
    }
  }

  /** through the transfer loop, */
  lemma {:induction false} StreamLater(s: Line, lastCheck: int, data: Bytes, sent: nat, maxChunk: int, maxRetries: int, delayMs: nat)
    requires sent <= |data|
    ensures Stream(s, lastCheck, data, sent, maxChunk, maxRetries, delayMs).line.clock >= s.clock
    decreases |data| - sent
  {
    if sent < |data| {
      var due := s.clock - lastCheck > SignalCheckEveryMs;
      var s1 := if due then SendAtOn(s, "OK", 2).2 else s;
      var chunk := Read(data, sent, maxChunk);
      if chunk != [] {
        var c := ChunkRetries(s1, 0, maxRetries, delayMs);
        RetriesLater(s1, 0, maxRetries, delayMs);
        if c.0 {
          StreamLater(c.2, if due then s1.clock else lastCheck, data, sent + |chunk|, maxChunk, maxRetries, delayMs);
        }
      }
    }
  }

  /** and through upload_ftp. */
  lemma UploadLater(s: Line, record: Option<Progress>, chunkSize: int, path: string, file: Option<Bytes>,
                    maxRetries: int, retryDelayS: nat)
    ensures FtpUpload(s, record, chunkSize, path, file, maxRetries, retryDelayS).line.clock >= s.clock
  {
    if file.Some? {
      IssuedLater(s, 10);
      var o := WaitOn(Issued(s, 10), "+FTPPUT: 1,1", 60);
      var resumeFrom := ResumeFrom(record, path, s.clock, |file.value|).0;
      if o.0 {
        StreamLater(o.2, o.2.clock, file.value, resumeFrom, WorkingChunk(o.1, chunkSize), maxRetries, retryDelayS * 1000);
      }
    }
  }

  /** The state of the chunk loop of upload_file after the chunks
      `posted` were accepted: `pos` bytes read, the rounds written to the
      log, and the run still to come from `line` leading to `h`, the run of
      the whole loop. */
  ghost predicate PostingAt(url: string, data: Bytes, n: int, l0: seq<Wire>, p0: Option<Progress>, h: HttpRun,
                            whole: seq<Bytes>, posted: seq<Bytes>, pos: nat, index: nat,
                            log: seq<Wire>, line: Line, progress: Option<Progress>)
  {
    && pos <= |data| && whole == posted + Pieces(data, pos, n)
    && log == l0 + HttpRounds(url, posted)
    && h == HttpPosts(line, data, pos, n, index)
    && index == |posted| && progress == p0
  }

  /** One round of the chunk loop of upload_file, from a state of it to
      the next one or to the end of the run: `s2` and `log2` are the line
      and the log after the POST of the chunk read, if any. */
  lemma PostingStep(url: string, data: Bytes, n: int, l0: seq<Wire>, p0: Option<Progress>, h: HttpRun,
                    whole: seq<Bytes>, posted: seq<Bytes>, pos: nat, index: nat, log: seq<Wire>, s: Line,
                    progress: Option<Progress>, chunk: Bytes, ok: bool, reply: string, s2: Line, log2: seq<Wire>)
    requires PostingAt(url, data, n, l0, p0, h, whole, posted, pos, index, log, s, progress)
    requires chunk == Read(data, pos, n)
    requires chunk != [] ==> (ok, reply, s2) == PostOn(s) && log2 == log + HttpRound(url, chunk)
    requires chunk == [] ==> s2 == s && log2 == log
    ensures pos + |chunk| <= |data|
    ensures chunk == [] ==> whole == posted && h == HttpRun(Success(()), index, s2) && log2 == l0 + HttpRounds(url, posted)
    ensures chunk != [] && ok ==>
      PostingAt(url, data, n, l0, p0, h, whole, posted + [chunk], pos + |chunk|, index + 1, log2, s2, progress)
    ensures chunk != [] && !ok ==>
      && posted + [chunk] <= whole && h == HttpRun(Failure(ChunkRejected(index, reply)), index + 1, s2)
      && log2 == l0 + HttpRounds(url, posted + [chunk])
  {
    if chunk != [] {
      PostedStep(s, data, pos, n, index, whole, posted, ok, reply, s2);
      HttpRoundsSnoc(l0, url, posted, chunk);
    } else {
      HttpPostsStep(s, data, pos, n, index);
      PiecesStep(data, pos, n);
      assert posted + [] == posted;
    }
  }

  class Sim7000 {
    /** What each successive poll of the port will find. */
    var script: seq<string>
    /** Milliseconds slept so far. */
    var clock: nat
    /** Every write to the port, in order. */
    var log: seq<Wire>
    /** The progress file; None when it does not exist. */
    var progress: Option<Progress>
    /** The configured chunk size. */
    const chunkSize: int

    constructor (script: seq<string>, clock: nat, progress: Option<Progress>, chunkSize: int := 512000)
      ensures this.script == script && this.clock == clock && this.log == []
      ensures this.progress == progress && this.chunkSize == chunkSize
    {
      this.script := script;
      this.clock := clock;
      this.log := [];
      this.progress := progress;
      this.chunkSize := chunkSize;
    }

    /** The serial line as it stands. */
    function Now(): Line
      reads this
    {
      Line(script, clock)
    }

    /** The polling loop shared by send_at and wait_for_response: its
        outcome is the transaction `Await` describes. */
    method Transact(expected: string, limitMs: nat, step: nat) returns (ok: bool, response: string)
      requires step > 0
      modifies this
      ensures var x := Await(old(script), "", expected, 0, limitMs, step);
        ok == x.matched && response == x.text && script == x.rest && clock == old(clock) + x.waited
      ensures log == old(log) && progress == old(progress)
    {
      ghost var goal := Observed(Await(script, "", expected, 0, limitMs, step));
      var waited: nat := 0;
      response := "";
      while waited < limitMs
        invariant goal == Observed(Await(script, response, expected, waited, limitMs, step))
        invariant clock == old(clock) + waited
        invariant log == old(log) && progress == old(progress)
        decreases limitMs - waited
      {
        var frag := Fragment(script, 0);
        script := Drop(script, 1);
        if frag != "" {
          response := response + frag;
          if Contains(response, expected) || Contains(response, ErrorToken) {
            ok := Contains(response, expected);
            return;
          }
        } else {
          EmptyBack(response);
        }
        clock := clock + step;
        waited := waited + step;
      }
      ok := false;
    }

    /** send_at: write the command, then poll every 50 ms. */
    method SendAt(command: string, expected: string := "OK", timeoutS: nat := 5) returns (ok: bool, response: string)
      modifies this
      ensures (ok, response, Now()) == SendAtOn(old(Now()), expected, timeoutS)
      ensures log == old(log) + [Command(command)] && progress == old(progress)
    {
      log := log + [Command(command)];
      ok, response := Transact(expected, timeoutS * 1000, SendAtPollMs);
    }

    /** send_at where the caller ignores the answer. */
    method Issue(command: string, expected: string := "OK", timeoutS: nat := 5)
      modifies this
      ensures Now() == SendAtOn(old(Now()), expected, timeoutS).2
      ensures log == old(log) + [Command(command)] && progress == old(progress)
    {
      var ok, response := SendAt(command, expected, timeoutS);
    }

    /** wait_for_response: poll every 100 ms without writing. */
    method WaitForResponse(expected: string, timeoutS: nat := 30) returns (ok: bool, response: string)
      modifies this
      ensures (ok, response, Now()) == WaitOn(old(Now()), expected, timeoutS)
      ensures log == old(log) && progress == old(progress)
    {
      ok, response := Transact(expected, timeoutS * 1000, WaitPollMs);
    }

    /** setup_network: probe the modem, attach, wait for registration (at
        most ten `AT+CREG?` polls two seconds apart, stopping at a home or
        roaming registration), open the bearer and require an address other
        than 0.0.0.0. */
    method SetupNetwork(apn: string := "hologram") returns (r: Outcome<string, NetError>, ghost polls: nat)
      modifies this
      ensures var run := NetworkSetup(old(Now())); r == run.r && polls == run.polls && Now() == run.line
      ensures r == Failure(ModemNotResponding) ==> log == old(log) + [Command("AT")]
      ensures r != Failure(ModemNotResponding) ==>
        && 1 <= polls <= 10
        && log == old(log) + Commands(["AT", SignalQuery, "AT+CFUN=1"]) + Commands(Repeat(RegistrationQuery, polls)) + Commands(BearerSetup(apn))
      ensures r.Success? ==> !Contains(r.value, "0.0.0.0")
      ensures progress == old(progress)
    {
      polls := 0;
      var ok, resp := SendAt("AT", "OK", 2);
      if !ok {
        r := Failure(ModemNotResponding);
        return;
      }
      ghost var probed := Now();
      Issue(SignalQuery);
      assert Now() == Issued(probed, 1);
      Issue("AT+CFUN=1", "OK", 5);
      ghost var start := log;
      ghost var polling := Now();
      assert polling == Issued(probed, 2);
      polls := AwaitRegistration();
      ghost var registered := log;
      Issue("AT+SAPBR=3,1,\"Contype\",\"GPRS\"");
      assert Now() == Issued(Registration(polling, 0).1, 1);
      Issue("AT+SAPBR=3,1,\"APN\",\"" + apn + "\"");
      assert Now() == Issued(Registration(polling, 0).1, 2);
      Issue("AT+SAPBR=1,1", "OK", 10);
      ok, resp := SendAt("AT+SAPBR=2,1", "OK", 5);
      if Contains(resp, "0.0.0.0") {
        r := Failure(NoIpAddress);
      } else {
        r := Success(resp);
      }
      SetupLog(old(log), start, registered, log, apn, polls);
      assert r != Failure(ModemNotResponding);
    }

    /** The registration loop of setup_network: at most ten `AT+CREG?`
        polls two seconds apart, stopping at a home or roaming registration. */
    method AwaitRegistration() returns (polls: nat)
      modifies this
      ensures (polls, Now()) == Registration(old(Now()), 0)
      ensures 1 <= polls <= 10 && log == old(log) + Commands(Repeat(RegistrationQuery, polls))
      ensures progress == old(progress)
    {
      var i := 0;
      while i < 10
        invariant 0 <= i <= 10
        invariant log == old(log) + Commands(Repeat(RegistrationQuery, i))
        invariant Registration(old(Now()), 0) == Registration(Now(), i)
        invariant progress == old(progress)
      {
        var ok, resp := SendAt(RegistrationQuery, "OK", 2);
        CommandsRepeatSnoc(old(log), RegistrationQuery, i);
        i := i + 1;
        if Contains(resp, ",1") || Contains(resp, ",5") {
          assert Registration(old(Now()), 0) == (i, Now());
          break;
        }
        clock := clock + 2000;
      }
      polls := i;
    }

    /** The retry loop of upload_ftp for one chunk: up to maxRetries times,
        announce the chunk, wait 15 s for the `+FTPPUT: 2,` prompt, write the
        data and wait 15 s for OK; sleep retryDelayS between failed attempts
        but not after the last. */
    method SendChunk(chunk: Bytes, maxRetries: int, retryDelayS: nat) returns (sent: bool, ghost attempts: nat)
      requires chunk != []
      modifies this
      ensures var c := ChunkRetries(old(Now()), 0, maxRetries, retryDelayS * 1000);
        sent == c.0 && attempts == c.1 && Now() == c.2
      ensures ChunkWrites(old(log), log, chunk, attempts)
      ensures sent ==> 1 <= attempts <= maxRetries
      ensures !sent ==> attempts == if maxRetries < 0 then 0 else maxRetries
      ensures progress == old(progress)
    {
      sent, attempts := false, 0;
      var attempt := 0;
      EmptyTail(log);
      while attempt < maxRetries
        invariant 0 <= attempt && attempt <= (if maxRetries < 0 then 0 else maxRetries)
        invariant attempts == attempt && !sent
        invariant ChunkRetries(old(Now()), 0, maxRetries, retryDelayS * 1000) == ChunkRetries(Now(), attempt, maxRetries, retryDelayS * 1000)
        invariant ChunkWrites(old(log), log, chunk, attempts)
        invariant progress == old(progress)
      {
        sent := AttemptChunk(chunk, old(log), attempts);
        attempts := attempts + 1;
        if sent {
          return;
        }
        if attempt < maxRetries - 1 {
          clock := clock + retryDelayS * 1000;
        }
        attempt := attempt + 1;
      }
    }

    /** One attempt of the retry loop of upload_ftp: announce the chunk,
        wait 15 s for the `+FTPPUT: 2,` prompt, write the data and wait
        15 s for OK. */
    method AttemptChunk(chunk: Bytes, ghost l0: seq<Wire>, ghost count: nat) returns (accepted: bool)
      requires ChunkWrites(l0, log, chunk, count)
      modifies this
      ensures var a := ChunkAttempt(old(Now())); accepted == a.1 && Now() == a.2
      ensures ChunkWrites(l0, log, chunk, count + 1)
      ensures progress == old(progress)
    {
      ChunkWritesSnoc(l0, log, chunk, count, Command(Announce(|chunk|)));
      log := log + [Command(Announce(|chunk|))];
      var ok, resp := WaitForResponse("+FTPPUT: 2,", 15);
      if !ok {
        return false;
      }
      ChunkWritesSnoc(l0, log, chunk, count + 1, Data(chunk));
      log := log + [Data(chunk)];
      accepted, resp := WaitForResponse("OK", 15);
    }

    /** The ten configuration commands of upload_ftp (SessionConfig), each
        sent with send_at's defaults: OK within 5 s. */
    method ConfigureSession(cfg: seq<string>)
      requires |cfg| == 10
      modifies this
      ensures Now() == Issued(old(Now()), 10)
      ensures log == old(log) + Commands(cfg)
      ensures progress == old(progress)
    {
      ghost var l0, s0 := log, Now();
      Issue(cfg[0]);
      assert Now() == Issued(s0, 1);
      Issue(cfg[1]);
      assert Now() == Issued(s0, 2);
      Issue(cfg[2]);
      assert Now() == Issued(s0, 3);
      Issue(cfg[3]);
      assert Now() == Issued(s0, 4);
      Issue(cfg[4]);
      assert Now() == Issued(s0, 5);
      Issue(cfg[5]);
      assert Now() == Issued(s0, 6);
      Issue(cfg[6]);
      assert Now() == Issued(s0, 7);
      Issue(cfg[7]);
      assert Now() == Issued(s0, 8);
      Issue(cfg[8]);
      assert Now() == Issued(s0, 9);
      Issue(cfg[9]);
      TenCommands(l0, cfg, log);
    }

    /** The transfer loop of upload_ftp (from the seek to the last chunk):
        check the signal when 30 s have passed since the last check, read
        the next chunk of at most maxChunk bytes, send it with retries, and
        on a chunk that fails save the progress and stop; after each chunk
        save the progress when the count just passed a multiple of 500 KiB.
        `complete` is false exactly when a chunk failed. */
    method StreamChunks(path: string, data: Bytes, resumeFrom: nat, maxChunk: int, maxRetries: int,
                        retryDelayS: nat, ghost from: nat)
      returns (complete: bool, sent: nat, ghost acked: seq<Bytes>)
      requires resumeFrom <= |data|
      requires from <= |log| && NoCloseFrom(log, from)
      modifies this
      ensures var e := Stream(old(Now()), old(clock), data, resumeFrom, maxChunk, maxRetries, retryDelayS * 1000);
        complete == e.complete && sent == e.sent && Now() == e.line
      ensures Acked(data, resumeFrom, sent, acked)
      ensures complete && maxChunk != 0 ==> sent == |data|
      ensures !complete ==> progress == Some(Progress(path, sent, clock))
      ensures StreamWrites(old(log), log, from, maxChunk)
    {
      EmptyTail(log);
      AckedNone(data, resumeFrom);
      complete, sent, acked := StreamLoop(path, data, resumeFrom, maxChunk, maxRetries, retryDelayS, from, log,
                                          Stream(Now(), clock, data, resumeFrom, maxChunk, maxRetries, retryDelayS * 1000));
    }

    /** The loop of StreamChunks, towards the run `e` of the whole loop. */
    method StreamLoop(path: string, data: Bytes, resumeFrom: nat, maxChunk: int, maxRetries: int,
                      retryDelayS: nat, ghost from: nat, ghost l0: seq<Wire>, ghost e: StreamEnd)
      returns (complete: bool, sent: nat, ghost acked: seq<Bytes>)
      requires resumeFrom <= |data| && from <= |l0|
      requires StreamingAt(e, Now(), clock, data, resumeFrom, resumeFrom, [], maxChunk, maxRetries, retryDelayS * 1000,
                           l0, log, from)
      modifies this
      ensures complete == e.complete && sent == e.sent && Now() == e.line
      ensures Acked(data, resumeFrom, sent, acked)
      ensures complete && maxChunk != 0 ==> sent == |data|
      ensures !complete ==> progress == Some(Progress(path, sent, clock))
      ensures StreamWrites(l0, log, from, maxChunk)
    {
      sent, acked, complete := resumeFrom, [], true;
      var lastSignalCheck := clock;
      while sent < |data|
        invariant StreamingAt(e, Now(), lastSignalCheck, data, resumeFrom, sent, acked, maxChunk, maxRetries,
                              retryDelayS * 1000, l0, log, from)
        invariant complete
        decreases |data| - sent
      {
        var go, chunk, checkedAt := StreamRound(path, data, resumeFrom, sent, acked, lastSignalCheck, maxChunk,
                                                maxRetries, retryDelayS, from, l0, e);
        if !go {
          complete := chunk == [];
          return;
        }
        lastSignalCheck := checkedAt;
        acked := acked + [chunk];
        sent := sent + |chunk|;
      }
    }

    /** One round of the transfer loop: the signal check, the read and the
        chunk with its retries. `go` is false when the read gave nothing or
        the chunk failed; a failed chunk saves the progress. */
    method StreamRound(path: string, data: Bytes, resumeFrom: nat, sent: nat, ghost acked: seq<Bytes>,
                       lastCheck: int, maxChunk: int, maxRetries: int, retryDelayS: nat, ghost from: nat,
                       ghost l0: seq<Wire>, ghost e: StreamEnd)
      returns (go: bool, chunk: Bytes, checkedAt: int)
      requires sent < |data| && from <= |l0|
      requires StreamingAt(e, Now(), lastCheck, data, resumeFrom, sent, acked, maxChunk, maxRetries,
                           retryDelayS * 1000, l0, log, from)
      modifies this
      ensures chunk == Read(data, sent, maxChunk) && sent + |chunk| <= |data|
      ensures chunk == [] ==> maxChunk == 0 && !go
      ensures go ==> StreamingAt(e, Now(), checkedAt, data, resumeFrom, sent + |chunk|, acked + [chunk], maxChunk,
                                 maxRetries, retryDelayS * 1000, l0, log, from)
      ensures !go ==> e == StreamEnd(chunk == [], sent, Now()) && Acked(data, resumeFrom, sent, acked)
                      && StreamWrites(l0, log, from, maxChunk)
      ensures !go && chunk != [] ==> progress == Some(Progress(path, sent, clock))
      ensures go ==> progress == if (sent + |chunk|) % ProgressEvery < maxChunk
                                 then Some(Progress(path, sent + |chunk|, clock)) else old(progress)
    {
      ghost var s, l := Now(), log;
      StreamSignal(l0, log, from, maxChunk, clock - lastCheck > SignalCheckEveryMs);
      checkedAt := PeriodicSignalCheck(lastCheck);
      ghost var s1 := Now();
      chunk := Read(data, sent, maxChunk);
      if chunk != [] {
        go := DeliverChunk(path, data, sent, chunk, maxChunk, maxRetries, retryDelayS, from, l0);
      } else {
        go := false;
      }
      StreamedStep(e, s, lastCheck, data, resumeFrom, sent, acked, maxChunk, maxRetries, retryDelayS * 1000, l0, l,
                   from, s1, checkedAt, chunk, go, Now(), log);
    }

    /** The chunk of one transfer round with its retries, then the
        progress record: the failed offset, or the checkpoint. */
    method DeliverChunk(path: string, data: Bytes, sent: nat, chunk: Bytes, maxChunk: int, maxRetries: int,
                        retryDelayS: nat, ghost from: nat, ghost l0: seq<Wire>) returns (go: bool)
      requires chunk != [] && (maxChunk >= 0 ==> |chunk| <= maxChunk) && from <= |l0|
      requires StreamWrites(l0, log, from, maxChunk)
      modifies this
      ensures var c := ChunkRetries(old(Now()), 0, maxRetries, retryDelayS * 1000); go == c.0 && Now() == c.2
      ensures !go ==> progress == Some(Progress(path, sent, clock))
      ensures go ==> progress == if (sent + |chunk|) % ProgressEvery < maxChunk
                                 then Some(Progress(path, sent + |chunk|, clock)) else old(progress)
      ensures StreamWrites(l0, log, from, maxChunk)
    {
      ghost var before := log;
      ghost var attempts;
      go, attempts := SendChunk(chunk, maxRetries, retryDelayS);
      StreamChunk(l0, before, log, from, maxChunk, chunk, attempts);
      if !go {
        SaveProgress(path, sent);
      } else {
        CheckpointProgress(path, sent + |chunk|, maxChunk);
      }
    }

    /** The progress checkpoint of the transfer loop: save the progress
        when the count just passed a multiple of 500 KiB. */
    method CheckpointProgress(path: string, sent: int, maxChunk: int)
      modifies this
      ensures progress == if sent % ProgressEvery < maxChunk then Some(Progress(path, sent, clock)) else old(progress)
      ensures script == old(script) && clock == old(clock) && log == old(log)
    {
      if sent % ProgressEvery < maxChunk {
        SaveProgress(path, sent);
      }
    }

    /** The signal check of the transfer loop: query the signal when more
        than 30 s have passed since `lastCheck`, and tell when it was last
        checked. */
    method PeriodicSignalCheck(lastCheck: int) returns (checkedAt: int)
      modifies this
      ensures Now() == if old(clock) - lastCheck > SignalCheckEveryMs then SendAtOn(old(Now()), "OK", 2).2 else old(Now())
      ensures log == old(log) + SignalCheckWrites(old(clock) - lastCheck > SignalCheckEveryMs)
      ensures checkedAt == if old(clock) - lastCheck > SignalCheckEveryMs then clock else lastCheck
      ensures progress == old(progress)
    {
      checkedAt := lastCheck;
      if clock - lastCheck > SignalCheckEveryMs {
        var signalOk, rssi := CheckSignal();
        checkedAt := clock;
      }
    }

    /** Open the FTP PUT session: write `AT+FTPPUT=1` and wait up to 60 s
        for `+FTPPUT: 1,1,<maxlength>`. */
    method OpenTransfer() returns (ok: bool, reply: string)
      modifies this
      ensures (ok, reply, Now()) == WaitOn(old(Now()), "+FTPPUT: 1,1", 60)
      ensures log == old(log) + [Command(OpenSession)] && progress == old(progress)
    {
      log := log + [Command(OpenSession)];
      ok, reply := WaitForResponse("+FTPPUT: 1,1", 60);
    }

    /** The configuration commands of a session, then its open. */
    method StartSession(cfg: seq<string>) returns (ok: bool, reply: string)
      requires |cfg| == 10 && CloseSession !in cfg
      modifies this
      ensures (ok, reply, Now()) == WaitOn(Issued(old(Now()), 10), "+FTPPUT: 1,1", 60)
      ensures |log| == |old(log)| + 11 && SessionStart(old(log), log, cfg)
      ensures NoCloseFrom(log, |old(log)|) && ChunksFrom(log, |old(log)|, 0)
      ensures progress == old(progress)
    {
      ConfigureSession(cfg);
      ok, reply := OpenTransfer();
      SessionLog(old(log), cfg, log);
      OpenedNoClose(old(log), cfg);
    }

    /** Close the FTP PUT session: after 0.5 s, announce a zero-length
        chunk (answered OK within 5 s) and wait up to 30 s for the final
        `+FTPPUT: 1,0`. */
    method CloseTransfer() returns (ok: bool, reply: string)
      modifies this
      ensures (ok, reply, Now()) == CloseOn(old(Now()))
      ensures log == old(log) + [Command(CloseSession)] && progress == old(progress)
    {
      clock := clock + 500;
      var closeOk, closeReply := SendAt(CloseSession, "OK", 5);
      ok, reply := WaitForResponse("+FTPPUT: 1,0", 30);
    }

    /** upload_ftp after the session is open: stream the file, then sleep
        0.5 s, send the zero-length close and wait 30 s for `+FTPPUT: 1,0`;
        clear the progress record on confirmation, save it otherwise. */
    method TransferAndClose(path: string, data: Bytes, resumeFrom: nat, maxChunk: int, maxRetries: int,
                            retryDelayS: nat, ghost from: nat)
      returns (r: Outcome<(), FtpError>, sent: nat, ghost acked: seq<Bytes>)
      requires resumeFrom <= |data|
      requires from <= |log| && NoCloseFrom(log, from)
      modifies this
      ensures var f := Finish(old(Now()), data, resumeFrom, maxChunk, maxRetries, retryDelayS * 1000);
        r == f.r && sent == f.sent && Now() == f.line
      ensures Acked(data, resumeFrom, sent, acked)
      ensures |log| >= |old(log)| && log[..|old(log)|] == old(log) && ChunksFrom(log, |old(log)|, maxChunk)
      ensures r.Success? || r.error.CloseUnconfirmed? || r.error.ChunkFailed?
      ensures r.Success? ==> progress == None && (maxChunk != 0 ==> sent == |data|)
      ensures r.Success? || r.error.CloseUnconfirmed? ==> ClosedOnce(log, from)
      ensures r.Failure? && r.error.ChunkFailed? ==> r.error == ChunkFailed(sent, maxRetries) && NoCloseFrom(log, from)
      ensures r.Failure? ==> progress == Some(Progress(path, sent, clock))
    {
      var complete;
      complete, sent, acked := StreamChunks(path, data, resumeFrom, maxChunk, maxRetries, retryDelayS, from);
      if !complete {
        r := Failure(ChunkFailed(sent, maxRetries));
        return;
      }
      ClosedOnceOf(log, from);
      CommandChunks(log, CloseSession, |old(log)|, maxChunk);
      KeepPrefix(log, [Command(CloseSession)], |old(log)|);
      var ok, resp := CloseTransfer();
      if ok {
        ClearProgress();
        r := Success(());
      } else {
        SaveProgress(path, sent);
        r := Failure(CloseUnconfirmed(resp));
      }
    }

    /** upload_ftp: resume from a fresh progress record (APPE) or start over
        (STOR), configure and open the session, stream the file in
        acknowledged chunks with retries, save progress on failure and every
        ~500 KiB, then close the session and clear the record only when the
        server confirms. */
    method UploadFtp(server: string, port: nat, user: string, password: string, path: string,
                     file: Option<Bytes>, remotePath: string := "/", maxRetries: int := 3, retryDelayS: nat := 5)
      returns (r: Outcome<(), FtpError>, resumeFrom: nat, sent: nat, maxChunk: int,
               ghost acked: seq<Bytes>)
      modifies this
      ensures var run := FtpUpload(old(Now()), old(progress), chunkSize, path, file, maxRetries, retryDelayS);
        r == run.r && resumeFrom == run.resumeFrom && sent == run.sent && maxChunk == run.maxChunk && Now() == run.line
      ensures file.None? ==> r == Failure(FileNotFound(path)) && log == old(log) && script == old(script)
                             && clock == old(clock) && progress == old(progress)
      ensures file.Some? ==>
        && (resumeFrom, resumeFrom > 0) == ResumeFrom(old(progress), path, old(clock), |file.value|)
        && SessionStart(old(log), log, SessionConfig(server, port, user, password, Basename(path), remotePath, resumeFrom > 0))
        && Acked(file.value, resumeFrom, sent, acked)
      ensures r.Failure? && r.error.SessionNotOpened? ==>
        |log| == |old(log)| + 11 && progress == old(progress) && sent == resumeFrom
      ensures r.Success? || (r.Failure? && (r.error.ChunkFailed? || r.error.CloseUnconfirmed?)) ==>
        file.Some? && ChunksFrom(log, |old(log)| + 11, maxChunk)
      ensures r.Success? ==> progress == None && (maxChunk != 0 ==> sent == |file.value|)
      ensures r.Success? || (r.Failure? && r.error.CloseUnconfirmed?) ==> ClosedOnce(log, |old(log)|)
      ensures r.Failure? && r.error.ChunkFailed? ==>
        r.error == ChunkFailed(sent, maxRetries) && NoCloseFrom(log, |old(log)|)
      ensures r.Failure? && (r.error.ChunkFailed? || r.error.CloseUnconfirmed?) ==>
        progress == Some(Progress(path, sent, clock))
    {
      resumeFrom, sent, maxChunk, acked := 0, 0, 0, [];
      if file.None? {
        r := Failure(FileNotFound(path));
        return;
      }
      r, resumeFrom, sent, maxChunk, acked :=
        UploadExisting(server, port, user, password, path, file, remotePath, maxRetries, retryDelayS);
    }

    /** upload_ftp of a file that exists: the resume decision, then the
        session. */
    method UploadExisting(server: string, port: nat, user: string, password: string, path: string,
                          file: Option<Bytes>, remotePath: string, maxRetries: int, retryDelayS: nat)
      returns (r: Outcome<(), FtpError>, resumeFrom: nat, sent: nat, maxChunk: int,
               ghost acked: seq<Bytes>)
      requires file.Some?
      modifies this
      ensures var run := FtpUpload(old(Now()), old(progress), chunkSize, path, file, maxRetries, retryDelayS);
        r == run.r && resumeFrom == run.resumeFrom && sent == run.sent && maxChunk == run.maxChunk && Now() == run.line
      ensures file.Some? ==>
        && (resumeFrom, resumeFrom > 0) == ResumeFrom(old(progress), path, old(clock), |file.value|)
        && SessionStart(old(log), log, SessionConfig(server, port, user, password, Basename(path), remotePath, resumeFrom > 0))
        && Acked(file.value, resumeFrom, sent, acked)
      ensures r.Failure? && r.error.SessionNotOpened? ==>
        |log| == |old(log)| + 11 && progress == old(progress) && sent == resumeFrom
      ensures r.Success? || (r.Failure? && (r.error.ChunkFailed? || r.error.CloseUnconfirmed?)) ==>
        file.Some? && ChunksFrom(log, |old(log)| + 11, maxChunk)
      ensures r.Success? ==> progress == None && (maxChunk != 0 ==> sent == |file.value|)
      ensures r.Success? || (r.Failure? && r.error.CloseUnconfirmed?) ==> ClosedOnce(log, |old(log)|)
      ensures r.Failure? && r.error.ChunkFailed? ==>
        r.error == ChunkFailed(sent, maxRetries) && NoCloseFrom(log, |old(log)|)
      ensures r.Failure? && (r.error.ChunkFailed? || r.error.CloseUnconfirmed?) ==>
        progress == Some(Progress(path, sent, clock))
    {
      var data := file.value;
      var filename := Basename(path);
      var stored := LoadProgress(path);
      var append: bool;
      if 0 < stored < |data| {
        resumeFrom, append := stored, true;
      } else {
        resumeFrom, append := 0, false;
      }
      assert (resumeFrom, append) == ResumeFrom(old(progress), path, old(clock), |data|);
      var cfg := SessionConfig(server, port, user, password, filename, remotePath, append);
      assert append == (resumeFrom > 0);
      assert cfg == SessionConfig(server, port, user, password, Basename(path), remotePath, resumeFrom > 0);
      SessionConfigNotClose(server, port, user, password, filename, remotePath, append);
      ghost var run;
      r, sent, maxChunk, acked, run := RunSession(cfg, path, data, resumeFrom, maxRetries, retryDelayS, file);
    }

    /** upload_ftp from the session on: open it with `cfg`, then send
        the data from `resumeFrom` and close it. */
    method RunSession(cfg: seq<string>, path: string, data: Bytes, resumeFrom: nat, maxRetries: int, retryDelayS: nat,
                      ghost file: Option<Bytes>)
      returns (r: Outcome<(), FtpError>, sent: nat, maxChunk: int, ghost acked: seq<Bytes>, ghost run: FtpRun)
      requires |cfg| == 10 && CloseSession !in cfg && file == Some(data)
      requires resumeFrom == ResumeFrom(progress, path, clock, |data|).0
      modifies this
      ensures run == FtpUpload(old(Now()), old(progress), chunkSize, path, file, maxRetries, retryDelayS)
      ensures r == run.r && resumeFrom == run.resumeFrom && sent == run.sent && maxChunk == run.maxChunk
              && Now() == run.line
      ensures SessionStart(old(log), log, cfg) && Acked(data, resumeFrom, sent, acked)
      ensures r.Failure? && r.error.SessionNotOpened? ==>
        |log| == |old(log)| + 11 && progress == old(progress) && sent == resumeFrom
      ensures r.Success? || (r.Failure? && (r.error.ChunkFailed? || r.error.CloseUnconfirmed?)) ==>
        ChunksFrom(log, |old(log)| + 11, maxChunk)
      ensures r.Success? ==> progress == None && (maxChunk != 0 ==> sent == |data|)
      ensures r.Success? || (r.Failure? && r.error.CloseUnconfirmed?) ==> ClosedOnce(log, |old(log)|)
      ensures r.Failure? && r.error.ChunkFailed? ==>
        r.error == ChunkFailed(sent, maxRetries) && NoCloseFrom(log, |old(log)|)
      ensures r.Failure? && (r.error.ChunkFailed? || r.error.CloseUnconfirmed?) ==>
        progress == Some(Progress(path, sent, clock))
    {
      run := FtpUpload(Now(), progress, chunkSize, path, file, maxRetries, retryDelayS);
      var ok, resp := StartSession(cfg);
      ghost var sessionLog := log;
      sent, maxChunk, acked := resumeFrom, 0, [];
      AckedNone(data, resumeFrom);
      if !ok {
        r := Failure(SessionNotOpened(resp));
        return;
      }
      maxChunk := WorkingChunk(resp, chunkSize);
      r, sent, acked := TransferAndClose(path, data, resumeFrom, maxChunk, maxRetries, retryDelayS, |old(log)|);
      SessionKept(old(log), sessionLog, log, cfg);
      assert ChunksFrom(log, |old(log)| + 11, maxChunk);
    }

    /** check_signal: the rssi of a `+CSQ` reply, or (false, 99). */
    method CheckSignal() returns (ok: bool, rssi: int)
      modifies this
      ensures var x := SendAtOn(old(Now()), "OK", 2);
        (ok, rssi) == SignalFromReply(x.0, x.1) && Now() == x.2
      ensures log == old(log) + [Command(SignalQuery)] && progress == old(progress)
    {
      var matched, resp := SendAt(SignalQuery, "OK", 2);
      var reading := SignalFromReply(matched, resp);
      ok, rssi := reading.0, reading.1;
    }

    /** save_progress: record the offset with the current time. */
    method SaveProgress(path: string, bytesSent: int)
      modifies this
      ensures progress == Some(Progress(path, bytesSent, clock))
      ensures script == old(script) && clock == old(clock) && log == old(log)
    {
      progress := Some(Progress(path, bytesSent, clock));
    }

    /** load_progress: the offset a fresh record for this path allows. */
    method LoadProgress(path: string) returns (offset: int)
      ensures offset == ResumeOffset(progress, path, clock)
    {
      offset := ResumeOffset(progress, path, clock);
    }

    /** clear_progress: remove the progress file. */
    method ClearProgress()
      modifies this
      ensures progress == None
      ensures script == old(script) && clock == old(clock) && log == old(log)
    {
      progress := None;
    }

    /** close_bearer. */
    method CloseBearer()
      modifies this
      ensures Now() == Issued(old(Now()), 1)
      ensures log == old(log) + [Command("AT+SAPBR=0,1")] && progress == old(progress)
    {
      var ok, resp := SendAt("AT+SAPBR=0,1", "OK", 5);
    }

    /** One chunk of upload_file: open an HTTP session for the URL,
        announce the chunk's length, write it after 0.5 s, run the POST
        (answered `+HTTPACTION: 1,200` within 30 s when accepted) and end
        the session. */
    method PostChunk(url: string, chunk: Bytes) returns (ok: bool, reply: string)
      modifies this
      ensures (ok, reply, Now()) == PostOn(old(Now()))
      ensures log == old(log) + HttpRound(url, chunk) && progress == old(progress)
    {
      ghost var before := log;
      PreparePost(url, chunk);
      ok, reply := SendAt(HttpAction, "+HTTPACTION: 1,200", 30);
      ghost var acted := Now();
      Issue(HttpTerm);
      assert Now() == Issued(acted, 1);
      HttpRoundOf(before, log, url, chunk);
    }

    /** The POST of one chunk up to its action: the session, the URL, the
        content type, then the data with its half-second pause. */
    method PreparePost(url: string, chunk: Bytes)
      modifies this
      ensures Now() == Sleep(Issued(old(Now()), 3), 500)
      ensures log == old(log) + [Command(HttpInit)] + [Command(HttpUrl(url))] + [Command(HttpContent)]
                     + [Command(HttpData(|chunk|))] + [Data(chunk)]
      ensures progress == old(progress)
    {
      ghost var s0 := Now();
      Issue(HttpInit);
      assert Now() == Issued(s0, 1);
      Issue(HttpUrl(url));
      assert Now() == Issued(s0, 2);
      Issue(HttpContent);
      assert Now() == Issued(s0, 3);
      log := log + [Command(HttpData(|chunk|))];
      clock := clock + 500;
      log := log + [Data(chunk)];
    }

    /** upload_file: POST the file over HTTP in chunks of chunkSize bytes,
        one session per chunk, stopping at the first chunk whose action is
        not answered `+HTTPACTION: 1,200` within 30 s. `posted` are the
        chunks written to the port. */
    method UploadFile(url: string, path: string, file: Option<Bytes>)
      returns (r: Outcome<(), HttpError>, ghost posted: seq<Bytes>)
      modifies this
      ensures file.None? ==> r == Failure(MissingFile) && log == old(log) && Now() == old(Now())
      ensures file.Some? ==> var h := HttpPosts(old(Now()), file.value, 0, chunkSize, 0);
        r == h.r && |posted| == h.posted && Now() == h.line
      ensures file.Some? ==> log == old(log) + HttpRounds(url, posted) && posted <= Pieces(file.value, 0, chunkSize)
      ensures r.Success? ==> file.Some? && posted == Pieces(file.value, 0, chunkSize)
      ensures file.Some? && r.Failure? ==> r.error.ChunkRejected? && |posted| >= 1 && r.error.index == |posted| - 1
      ensures progress == old(progress)
    {
      posted := [];
      if file.None? {
        r := Failure(MissingFile);
        return;
      }
      r, posted := PostChunks(url, file.value);
    }

    /** One round of the chunk loop of upload_file: read the next chunk
        and, when there is one, POST it. */
    method PostRound(url: string, data: Bytes, pos: nat, index: nat, ghost posted: seq<Bytes>, ghost l0: seq<Wire>,
                     ghost p0: Option<Progress>, ghost h: HttpRun, ghost whole: seq<Bytes>)
      returns (chunk: Bytes, ok: bool, reply: string, next: nat, nextIndex: nat, ghost more: seq<Bytes>)
      requires PostingAt(url, data, chunkSize, l0, p0, h, whole, posted, pos, index, log, Now(), progress)
      modifies this
      ensures chunk == Read(data, pos, chunkSize) && next == pos + |chunk| <= |data|
      ensures nextIndex == index + 1 && more == posted + [chunk]
      ensures chunk == [] ==>
        && whole == posted && h == HttpRun(Success(()), index, Now())
        && log == l0 + HttpRounds(url, posted) && progress == p0
      ensures chunk != [] && ok ==>
        PostingAt(url, data, chunkSize, l0, p0, h, whole, more, next, nextIndex, log, Now(), progress)
      ensures chunk != [] && !ok ==>
        && more <= whole && h == HttpRun(Failure(ChunkRejected(index, reply)), nextIndex, Now())
        && log == l0 + HttpRounds(url, more) && progress == p0
    {
      ghost var s := Now();
      chunk := Read(data, pos, chunkSize);
      ghost var before := log;
      if chunk != [] {
        ok, reply := PostChunk(url, chunk);
      } else {
        ok, reply := false, "";
      }
      PostingStep(url, data, chunkSize, l0, p0, h, whole, posted, pos, index, before, s, progress, chunk, ok, reply,
                  Now(), log);
      next, nextIndex, more := pos + |chunk|, index + 1, posted + [chunk];
    }

    /** The chunk loop of upload_file over the file's bytes. */
    method PostChunks(url: string, data: Bytes) returns (r: Outcome<(), HttpError>, ghost posted: seq<Bytes>)
      modifies this
      ensures var h := HttpPosts(old(Now()), data, 0, chunkSize, 0); r == h.r && |posted| == h.posted && Now() == h.line
      ensures log == old(log) + HttpRounds(url, posted) && posted <= Pieces(data, 0, chunkSize)
      ensures r.Success? ==> posted == Pieces(data, 0, chunkSize)
      ensures r.Failure? ==> r.error.ChunkRejected? && |posted| >= 1 && r.error.index == |posted| - 1
      ensures progress == old(progress)
    {
      UploadStart(data, chunkSize, log, url);
      r, posted := PostLoop(url, data, log, progress, HttpPosts(Now(), data, 0, chunkSize, 0), Pieces(data, 0, chunkSize));
    }

    /** The loop of PostChunks, from nothing posted towards the run `h` of
        the whole loop over the chunks `whole`. */
    method PostLoop(url: string, data: Bytes, ghost l0: seq<Wire>, ghost p0: Option<Progress>, ghost h: HttpRun,
                    ghost whole: seq<Bytes>)
      returns (r: Outcome<(), HttpError>, ghost posted: seq<Bytes>)
      requires PostingAt(url, data, chunkSize, l0, p0, h, whole, [], 0, 0, log, Now(), progress)
      modifies this
      ensures r == h.r && |posted| == h.posted && Now() == h.line
      ensures log == l0 + HttpRounds(url, posted) && posted <= whole
      ensures r.Success? ==> posted == whole
      ensures r.Failure? ==> r.error.ChunkRejected? && |posted| >= 1 && r.error.index == |posted| - 1
      ensures progress == p0
    {
      posted := [];
      var pos: nat := 0;
      var index: nat := 0;
      while true
        invariant PostingAt(url, data, chunkSize, l0, p0, h, whole, posted, pos, index, log, Now(), progress)
        decreases |data| - pos
      {
        var chunk, ok, resp, next, nextIndex, more := PostRound(url, data, pos, index, posted, l0, p0, h, whole);
        if chunk == [] {
          PrefixOfSelf(posted);
          break;
        }
        if !ok {
          posted := more;
          r := Failure(ChunkRejected(index, resp));
          return;
        }
        posted, pos, index := more, next, nextIndex;
      }
      r := Success(());
    }
  }
}
