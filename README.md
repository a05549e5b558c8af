# USB Cellular Airbridge: a Dafny model

The airbridge is a Raspberry Pi that acts as a USB mass-storage device for a host machine. When the host has finished writing files, the Pi takes the disk back, mounts it locally, and uploads the files over a SIM7000G cellular modem by FTP. It deletes a file only after that file's upload succeeded. It then gives the disk back to the host.

This project models the control logic of that service and proves its promises.

- **Modem handler** (`modem_handler.py`) — modules `Transaction`, `ModemParse` and `ModemHandler`:
  - the AT command transaction (send_at, wait_for_response) over a serial port, modelled as a script of received fragments;
  - network bring-up;
  - the `+CSQ` signal reading;
  - the resume record;
  - the chunked FTP upload with per-chunk retries and resume by APPE;
  - the chunked HTTP upload.
- **Service** (`main.py`) — modules `DiskStats`, `HarvestScan` and `Airbridge`:
  - the disk write counter;
  - the harvest scan;
  - harvest_and_upload;
  - the boot-time upload phase;
  - the monitor's state machine.

  What the service does to the disk is recorded as a sequence of actions:
  - gadget unload or load;
  - local unmount or mount;
  - file deletion.

  Exclusivity is a property of that sequence: the disk is never mounted locally while the host has it.
- **Outbox uploader** (`src/airbridge/ftp_uploader.py`) — module `FtpUploader`: the rssi classification, the oldest-first pending list, and the batch upload that stops at the first failure.
- **USB gadget manager** (`src/airbridge/pi_usb_manager.py`) — module `UsbManager`: the `gadget_loaded` flag, the quiet-window wait and the duty cycle. Each command run is recorded with its exit status.

Module `Text` holds the Python string operations the model needs:
- `strip`, `rstrip`, `split`, `startswith`, `in`, `int()` and `str()`.

Inputs from the environment are parameters of the model:
- the modem's replies;
- subprocess exit statuses, including whether each mount worked and whether each umount left the disk mounted;
- sysfs contents;
- directory listings;
- modification times.

Time is an integer clock in milliseconds on the modem object, or on the polls of the quiet-window loop. Only the sleeps and the poll intervals advance it.

## Model

| member | source | states |
|---|---|---|
| Text.LStrip | main.py:73-75 | the result is a suffix of the input; everything removed is in the strip set; the result does not start with a character of the set |
| Text.RStrip | main.py:73-75 | the result is a prefix of the input; everything removed is in the strip set; the result does not end with a character of the set |
| Text.StripPadded | main.py:50 | `strip()` removes exactly the white space around a text that neither starts nor ends with white space |
| Text.ParseDigitsOnly | main.py:84 | `int()` of a run of decimal digits with white space around it is the run's decimal value |
| Text.ParseShowNat | modem_handler.py:94 | `int()` gives back a formatted natural number padded with white space |
| Text.ShowNatRoundTrip | modem_handler.py:228 | reading back the decimal text of a number gives the number |
| Text.ShowNatInjective | modem_handler.py:228 | distinct lengths are announced by distinct texts |
| Text.SplitOnFirst | modem_handler.py:94 | `split(c)` of a text whose first separator follows `a` is `a` followed by the split of the rest |
| Text.SplitOnNone | modem_handler.py:94 | without a separator, `split(c)` yields the whole text as one piece |
| Text.WordsOfJoin | main.py:80 | `split()` recovers the fields of a statistics line whose fields are non-empty words separated by spaces |
| Text.ContainsInfix | modem_handler.py:26 | a token spliced into a response is `in` the response |
| Text.ContainsNeedsRoom | modem_handler.py:26 | a token is never `in` a shorter response |
| DiskStats.DiskName | main.py:72-75 | the disk name is a prefix of the partition name; for `mmcblk` names what is removed is a run of `p` separators followed by all the trailing digits, and the name no longer ends in `p`; otherwise exactly the trailing digits are removed, and the name no longer ends in a digit |
| DiskStats.MmcDisk | main.py:72-73 | partition `mmcblk<k>p<n>` belongs to disk `mmcblk<k>` |
| DiskStats.LetteredDisk | main.py:74-75 | partition `<name><n>` with a name ending in a letter (such as `sda1`) belongs to disk `<name>` |
| DiskStats.DevPartition | main.py:71 | the partition name of `/dev/<name>` is `<name>` |
| DiskStats.WriteSectors | main.py:60-88 | -1 for a path outside `/dev/` or a missing statistics file; otherwise the integer in the seventh field, or -1 when that field is absent or not an integer; `DiskStats.DeviceCounter` and `DiskStats.DeviceShortStat` state what it reads for a device |
| DiskStats.ShortStatHasNoCounter | main.py:83-88 | a statistics line with fewer than seven fields gives no counter |
| DiskStats.StatLineCounter | main.py:80-84 | a statistics line whose seventh field is the number n gives n |
| DiskStats.DeviceCounter | main.py:60-88 | for a device `/dev/<p>`, the counter is the seventh field of the statistics file `/sys/block/<disk>/<p>/stat`, when that field is a number |
| DiskStats.DeviceShortStat | main.py:80-88 | for a device `/dev/<p>` whose statistics file has fewer than seven fields, the counter is -1 |
| HarvestScan.ScanSound | main.py:141-150 | every collected path is a wanted file (not hidden, not `desktop.ini` or `Thumbs.db`) reached through directories that are not hidden |
| HarvestScan.ScanComplete | main.py:141-150 | every wanted file reached through directories that are not hidden is collected |
| Transaction.AwaitSpec | modem_handler.py:21-33 | the response is exactly what the polls delivered; the transaction stops at the first poll whose text makes the response contain the expected token or `ERROR`, and at no earlier poll; it matched iff it stopped before the deadline with the expected token present, so a response holding both tokens counts as a match; a timeout never matches; the time spent stays within one poll interval past the deadline |
| Transaction.SilentAwait | modem_handler.py:21-33 | on a port where nothing arrives, a transaction times out unmatched with the response it began with |
| ModemParse.SignalFromReply | modem_handler.py:89-98 | (true, rssi) iff the reply matched, contains `+CSQ:`, and the field between the first `:` and the next `,` parses as an integer, which is the rssi; otherwise (false, 99) |
| ModemParse.CsqRoundTrip | modem_handler.py:91-95 | a well-formed `+CSQ: <rssi>,<ber>` reply reads back as (true, rssi) |
| ModemParse.WorkingChunk | modem_handler.py:192-196 | the smaller of the configured chunk size and the number after the last comma of the reply; 1000 when that number does not parse |
| ModemParse.SessionReplyChunk | modem_handler.py:187-194 | the ready reply `+FTPPUT: 1,1,<max>` gives min(max, chunk size) |
| ModemParse.ResumeOffset | modem_handler.py:113-126 | a non-zero offset comes only from a record for the same path that is less than an hour old, and such a record always gives its stored bytes_sent |
| ModemParse.ResumeFrom | modem_handler.py:154-160 | append mode iff the offset is positive; it is then the stored bytes_sent of a fresh record for this path, strictly below the file size; such a record always resumes |
| ModemParse.StaleRecordRestarts | modem_handler.py:121-122 | a record an hour old or older restarts the upload from 0 with STOR |
| ModemParse.Read | modem_handler.py:218 | `f.read(n)` returns the bytes at the current position: the rest of the file for a negative n, otherwise n bytes or what is left |
| ModemParse.Basename | modem_handler.py:150 | the base name contains no `/` and ends the path; it is either the whole path or what follows the last `/` |
| ModemParse.AnnounceNotClose | modem_handler.py:228 | announcing a chunk of at least one byte is never the close command `AT+FTPPUT=2,0` |
| ModemParse.SessionConfig | modem_handler.py:165-179 | ten configuration commands, the last choosing APPE when resuming and STOR otherwise |
| ModemParse.SessionConfigNotClose | modem_handler.py:165-179 | no configuration command is the close command |
| ModemHandler.AckedSnoc | modem_handler.py:258 | adding an acknowledged chunk read at bytes_sent keeps the acknowledged chunks equal to the file between the resume offset and bytes_sent |
| ModemHandler.Pieces | modem_handler.py:292-297 | the chunks successive reads return are non-empty; every one but the last has exactly the chunk size |
| ModemHandler.PiecesCover | modem_handler.py:292-297 | joined back together, the chunks are the file from the starting position on |
| ModemHandler.HttpPayload | modem_handler.py:299-318 | the data written by the POSTs of some chunks is those chunks joined, in order |
| ModemHandler.HttpUploadPayload | modem_handler.py:284-320 | a completed HTTP upload writes exactly the file's bytes as data |
| ModemHandler.RegistrationStops | modem_handler.py:68-74 | the registration loop stops at the first poll whose reply contains `,1` or `,5`, and makes all ten polls when none does; every poll before the last was unregistered |
| ModemHandler.SilentNetwork | modem_handler.py:56-59 | against a modem that never answers, setup_network fails at the probe with "Modem not responding" |
| ModemHandler.ChunkAcceptedOnReplies | modem_handler.py:226-246 | a chunk attempt succeeds only when the `+FTPPUT: 2,` prompt arrived and then the OK |
| ModemHandler.SilentChunk | modem_handler.py:226-251 | against a modem that never answers, no attempt at a chunk succeeds |
| ModemHandler.SilentStream | modem_handler.py:210-256 | against a modem that never answers, the transfer loop sends nothing; it fails unless nothing was left to send or the working chunk size is 0 |
| ModemHandler.ZeroChunkStreamsNothing | modem_handler.py:218-220 | with a working chunk size of 0 the first read is empty, so the loop ends at once as complete, at the offset it started from |
| ModemHandler.UploadConfirmed | modem_handler.py:186-275 | upload_ftp succeeds only when the open reply holds `+FTPPUT: 1,1`, the transfer loop went through, and the close reply holds `+FTPPUT: 1,0` |
| ModemHandler.SilentUpload | modem_handler.py:181-189 | against a modem that never answers, upload_ftp of an existing file fails at the open with an empty reply |
| ModemHandler.PostAcceptedOnReply | modem_handler.py:311-315 | a POST is accepted only when its reply holds `+HTTPACTION: 1,200` |
| ModemHandler.SilentPost | modem_handler.py:292-315 | against a modem that never answers, a file with data is rejected at chunk 0 with an empty reply |
| ModemHandler.Sim7000.constructor | modem_handler.py:10-13 | a handler with the given port script, clock, progress record and chunk size, and nothing written yet |
| ModemHandler.Sim7000.Transact | modem_handler.py:21-33 | the polling loop computes the transaction of `Transaction.AwaitSpec`: its result, its response, the fragments it leaves unread and the time it spent |
| ModemHandler.Sim7000.SendAt | modem_handler.py:15-33 | writes the command, then runs the transaction of `Transaction.AwaitSpec` with 50 ms polls and the given timeout; the result, the response and the port and clock afterwards are those of that transaction on the modem's replies |
| ModemHandler.Sim7000.WaitForResponse | modem_handler.py:35-50 | runs the same transaction with 100 ms polls and writes nothing; checking the expected token before `ERROR` gives the same result as send_at's check |
| ModemHandler.Sim7000.SetupNetwork | modem_handler.py:52-87 | the outcome, the number of `AT+CREG?` polls and the port and clock afterwards are those of `ModemHandler.NetworkSetup` on the modem's replies: "Modem not responding", after writing only `AT`, iff the probe is unmatched; otherwise between 1 and 10 polls, stopping as `ModemHandler.RegistrationStops` says, then the four bearer commands; it fails iff the address reply contains `0.0.0.0`, and on success returns that reply |
| ModemHandler.Sim7000.CheckSignal | modem_handler.py:89-98 | writes `AT+CSQ`, then gives the reading of `ModemParse.SignalFromReply` on send_at's reply, with the port and clock afterwards those of that transaction |
| ModemHandler.Sim7000.SaveProgress | modem_handler.py:100-111 | the progress record becomes (path, bytes_sent, now) |
| ModemHandler.Sim7000.LoadProgress | modem_handler.py:113-126 | the offset of `ModemParse.ResumeOffset` for the stored record |
| ModemHandler.Sim7000.ClearProgress | modem_handler.py:128-134 | the progress record is removed |
| ModemHandler.Sim7000.ConfigureSession | modem_handler.py:165-179 | the ten configuration commands are written in order |
| ModemHandler.Sim7000.OpenTransfer | modem_handler.py:181-189 | writes `AT+FTPPUT=1` and succeeds iff `+FTPPUT: 1,1` arrives within 60 s |
| ModemHandler.Sim7000.SendChunk | modem_handler.py:226-251 | whether the chunk was sent, the attempts made and the port and clock afterwards are those of the retry loop over the modem's replies, where an attempt succeeds only when both the prompt and the OK arrived (`ModemHandler.ChunkAcceptedOnReplies`); only announcements of this chunk's length and copies of the chunk are written; sent after 1 to max_retries announcements, not sent after exactly max_retries |
| ModemHandler.Sim7000.PeriodicSignalCheck | modem_handler.py:211-216 | queries the signal iff more than 30 s passed since the last check, and the check time moves forward exactly then |
| ModemHandler.Sim7000.CheckpointProgress | modem_handler.py:262-264 | saves (path, bytes_sent, now) iff bytes_sent mod 500 KiB is below the working chunk size |
| ModemHandler.Sim7000.StreamChunks | modem_handler.py:201-264 | whether the loop went through, bytes_sent and the port and clock afterwards are those of the transfer loop on the modem's replies; the acknowledged chunks are the file from the resume offset to bytes_sent, so resume_from <= bytes_sent <= filesize; a completed loop sent the whole file; a failed one saved progress at the un-advanced bytes_sent; earlier writes are kept, no close is written, and every data write is a non-empty chunk within the working size |
| ModemHandler.Sim7000.CloseTransfer | modem_handler.py:266-271 | writes only `AT+FTPPUT=2,0`, and succeeds iff `+FTPPUT: 1,0` arrives within 30 s after send_at's reply; the port and clock afterwards are those of the two transactions |
| ModemHandler.Sim7000.TransferAndClose | modem_handler.py:205-278 | the outcome, bytes_sent and the port and clock afterwards are those of the transfer loop and the close on the modem's replies; success clears progress and means the whole file was sent; the close command is written exactly once, as the last write, unless a chunk failed; any failure saves progress at bytes_sent |
| ModemHandler.Sim7000.UploadFtp | modem_handler.py:136-278 | the outcome, the resume offset, bytes_sent, the working chunk size and the port and clock afterwards are those of `ModemHandler.FtpUpload` on the modem's replies, so success needs the replies of `ModemHandler.UploadConfirmed`; a missing file fails before any write; otherwise the resume decision is that of `ModemParse.ResumeFrom`, and the ten configuration commands and the open command are written first; a session that does not open fails with progress untouched; chunks stay within the working size; success clears progress and means the whole file was acknowledged, with the close written once, last; a chunk failure leaves no close and saves progress |
| ModemHandler.Sim7000.CloseBearer | modem_handler.py:280-282 | writes `AT+SAPBR=0,1` |
| ModemHandler.Sim7000.PostChunk | modem_handler.py:299-318 | writes one POST round: init, URL, content type, data announcement, the chunk, action, term; accepted iff the action's transaction matched `+HTTPACTION: 1,200` (`ModemHandler.PostAcceptedOnReply`), with the port and clock afterwards those of the round |
| ModemHandler.Sim7000.PostChunks | modem_handler.py:292-318 | the outcome, the number of rounds and the port and clock afterwards are those of the chunk loop on the modem's replies; the rounds written are those of the chunks read so far, in order; success means every chunk was posted; a failure names the index of the last chunk posted |
| ModemHandler.Sim7000.UploadFile | modem_handler.py:284-320 | a missing file fails without writing; otherwise the outcome is that of the chunk loop of `ModemHandler.Sim7000.PostChunks` on the modem's replies, so success has posted the whole file |
| Airbridge.RemovalsExactly | main.py:175-196 | a file is deleted iff one of its uploads succeeded |
| Airbridge.NoSuccessNoRemoval | main.py:163-169 | without a successful upload nothing is deleted |
| Airbridge.RemovalsExclusive | main.py:188-192 | deletions happen on the local mount, with the gadget unloaded, and leave the disk state alone |
| Airbridge.HarvestExclusive | main.py:109-212 | from any state, a harvest never mounts the disk while the gadget is loaded (unload before mount); it shares the disk iff it loads the gadget over a disk still mounted, that is when the final umount left the mount in place or, after a failed mount, the stale umount kept an earlier mount; it ends with the gadget loaded and the disk mounted only in those cases |
| Airbridge.HarvestKeeps | main.py:116-212 | for every starting state at once: a harvest none of whose umounts left the disk mounted never shares the disk and ends with the gadget loaded and the disk unmounted |
| Airbridge.FailedUnmountShares | main.py:109-114 | a harvest whose final umount leaves the disk mounted loads the gadget over the mounted disk, so the host and the Pi share it |
| Airbridge.GuardedHarvestExclusive | main.py:116-212 | the corrected harvest, which loads the gadget only when the umount it relied on worked, never shares the disk from any state; the gadget is then loaded iff that umount worked, and a loaded gadget always finds the disk unmounted |
| Airbridge.ArchivesInExactly | main.py:267-273 | a path is pending iff it is the outbox's path of a listed name ending in `.zip` or `.gz` |
| Airbridge.ArchivesDistinct | main.py:291-294 | the pending archives of a listing of distinct names are distinct |
| Airbridge.PresentFrom | main.py:336-337 | every file the boot loop attempts is a pending archive still on the disk |
| Airbridge.NotYetRemoved | main.py:331-337 | the next pending archive has not been deleted yet, so the existence check sees the disk as it was |
| Airbridge.PhaseExclusive | main.py:275-360 | a boot attempt that starts with the gadget unloaded never shares the disk; it leaves the disk mounted iff the mount worked and either the attempt asks for a retry or the final umount left the mount in place, or, after a failed mount, the stale umount kept an earlier mount |
| Airbridge.PhaseKeeps | main.py:275-360 | for every starting state with the gadget unloaded: an attempt none of whose umounts left the disk mounted leaves it mounted iff the mount worked and the attempt asks for a retry |
| Airbridge.StartKeeps | main.py:373-396 | unloading the gadget, the boot attempts, an unmount when the last attempt kept the disk, then loading the gadget: when no umount left the disk mounted, the disk is never shared and ends lent to the host |
| Airbridge.MainLoadsMountedDisk | main.py:384-396 | loading the gadget after boot attempts that leave the disk mounted shares the disk; an unmount first prevents it |
| Airbridge.BootRetryThenLoad | main.py:314-320 | a boot that ends on an attempt whose network setup failed in time, followed by the gadget load, shares the disk, although every umount worked |
| Airbridge.ConfiguredTrigger | main.py:413-438 | while the host is attached, a harvest fires iff a write time is recorded (this poll's, when the counter went up) and the quiet window has elapsed since it |
| Airbridge.DisconnectTrigger | main.py:446-457 | when the host is not attached, a harvest fires iff it was attached and a write was recorded; the session ends and the write time is cleared |
| Airbridge.HarvestResets | main.py:440-457 | after a harvest the write time is cleared and the host is marked disconnected; a harvest at the quiet window restarts both counters from the counter read after it (lines 441-442), while a harvest on disconnect keeps them |
| Airbridge.WriteDetection | main.py:413-427 | on a new connection both counters restart from the current one; a write is recorded, with the poll's time, iff the counter went past the last one seen; the last seen counter never decreases |
| Airbridge.UdcState | main.py:44-53 | the stripped state file of the first controller; `unknown` when there is no controller or no state file; `Airbridge.UdcStatePadded` states what a padded state word reads as |
| Airbridge.UdcStatePadded | main.py:44-53 | a state file holding a state word with white space around it reads as that word |
| Airbridge.Host.UnmountDisk | main.py:109-114 | umount after half a second, its status unchecked: the mount survives iff `held`; nothing else changes |
| Airbridge.Host.UploadOne | main.py:179-196 | succeeds iff `ModemHandler.FtpUpload` succeeds on the modem's replies; then, and only then, the file is deleted and the deletion recorded; the file was then on the disk and the progress record is cleared; the port and progress file afterwards are those of `Airbridge.UploadOnce`, upload_ftp with its default three retries five seconds apart |
| Airbridge.Host.UploadAll | main.py:175-196 | every candidate is attempted in order; exactly the successfully uploaded files are deleted, all of them from the disk; the result is true iff every upload succeeded; the outcomes, the port and the progress file are those of `Airbridge.HarvestUploads` on the old port, each upload decided by the replies after the previous one |
| Airbridge.HarvestCovers | main.py:175-196 | the harvest loop gives every candidate exactly one outcome, so a failed upload does not stop the ones after it |
| Airbridge.HarvestAppend | main.py:175-196 | the harvest of `a + b` is the harvest of `a`, then the harvest of `b` from the port, progress file and files that `a` left, whatever `a`'s outcomes were |
| Airbridge.Host.UploadCandidates | main.py:158-199 | the network is up iff `ModemHandler.NetworkSetup` succeeds on the modem's replies; without it no upload succeeds; with it, the outcomes are those of `Airbridge.HarvestUploads` from the port the setup left, and the bearer is closed last |
| Airbridge.Host.HarvestMounted | main.py:139-212 | with no candidates the modem is not touched and the result is true; otherwise the network decided by the modem's replies, the uploads as `Airbridge.HarvestUploads` decides them, then unmount and gadget reload; deleted iff uploaded; true iff every upload succeeded |
| Airbridge.Host.HarvestAndUpload | main.py:116-212 | the candidates are the scan of the mount point; the actions are those of `Airbridge.HarvestTrace`: unload, stale umount, mount, then on success the deletions, umount and reload; the network is up iff setup_network succeeds on the modem's replies a second after the unload, and the outcomes are then those of `Airbridge.HarvestUploads` from the port the setup left; the files left are the old ones minus exactly those uploaded; the result is true iff the mount worked and every upload succeeded |
| Airbridge.Host.UploadPending | main.py:331-355 | the attempted files are the pending archives still present, in order, up to where it stopped; it stops early only after the timeout; exactly the uploaded ones are deleted; how far it got, the attempts, their outcomes, the port and the progress file are those of `Airbridge.BootUpload` on the old port |
| Airbridge.Host.PendingNext | main.py:332-352 | one round before the timeout: the next archive is uploaded if still on the disk and skipped otherwise, keeping the loop's deletions and `Airbridge.BootUpload` state |
| Airbridge.BootUploadStops | main.py:331-355 | the boot upload loop reaches every pending archive unless the clock had passed the timeout when it stopped; it gives one outcome per attempted archive, and its first attempt is a pending archive that was on the disk |
| Airbridge.Host.BootUploads | main.py:305-360 | the network is up iff setup_network succeeds on the modem's replies, and the time it took is that of those replies; asks for a retry iff the network failed before the timeout, keeping the disk mounted; otherwise it unmounts; without a network nothing is attempted; with it, how far it got, the attempts and their outcomes are those of `Airbridge.BootUpload` from the port the setup left, timed from the phase's start |
| Airbridge.Host.PhaseMounted | main.py:290-360 | with no pending archives it unmounts and proceeds without touching the modem; otherwise the network and upload part, the network decided by the modem's replies and the uploads by `Airbridge.BootUpload` |
| Airbridge.Host.StartupUploadPhase | main.py:275-360 | pending archives are the `.zip`/`.gz` entries; the network is decided by the modem's replies; it asks for a retry iff the mount worked, something is pending, and the network failed before the timeout; a failed mount proceeds at once; files are deleted only when uploaded; uploading stops only after the timeout; missing files are skipped; with a network, the attempts and their outcomes are those of `Airbridge.BootUpload` from the port the setup left |
| Airbridge.Host.Attempt | main.py:385 | one boot attempt whose umounts all worked never shares the disk from a state with the gadget unloaded, and leaves the disk mounted iff it asks for a retry |
| Airbridge.Host.BootPhase | main.py:381-387 | attempts until one proceeds or the boot timeout has passed; when no umount left the disk mounted, the disk is never shared, and it ends mounted iff the last attempt asked for a retry |
| Airbridge.Host.Poll | main.py:407-459 | the tracking update and the harvest decision are those of the monitor's state machine, fed with the UDC state and write counters this poll reads; a harvest runs harvest_and_upload; each poll waits the poll interval |
| Airbridge.Host.Watch | main.py:407-459 | a poll whose umounts worked never shares the disk, and leaves it lent to the host when it harvested |
| Airbridge.Host.Monitor | main.py:407-466 | over any run of polls whose umounts worked the disk is never shared |
| Airbridge.Host.Service | main.py:362-468 | the service with the boot-loop correction: when no umount left the disk mounted, the disk is never shared at any point and ends lent to the host; the exit code is 1 iff the gadget failed to load |
| FtpUploader.SignalVerdict | src/airbridge/ftp_uploader.py:155-181 | good iff a modem exists, the reading succeeded, rssi is not 99 and rssi >= 5; the rssi returned is the reading's when the modem exists and the reading succeeded, otherwise 0 |
| FtpUploader.WeakSignalUploads | src/airbridge/ftp_uploader.py:169-171 | a weak signal (rssi 5 to 9) is still good enough |
| FtpUploader.FailedReadingRefused | src/airbridge/ftp_uploader.py:175-177 | a failed reading gives (false, 0) whatever rssi was reported |
| FtpUploader.RegularOnly | src/airbridge/ftp_uploader.py:104-106 | the pending candidates are exactly the regular files of the outbox |
| FtpUploader.Insert | src/airbridge/ftp_uploader.py:109 | inserting into an oldest-first list keeps it oldest-first and adds exactly that entry |
| FtpUploader.PendingFiles | src/airbridge/ftp_uploader.py:100-114 | the pending files are the regular files of the outbox, each once, oldest modification time first |
| FtpUploader.Uploader.constructor | src/airbridge/ftp_uploader.py:26-33 | an uploader with no modem set up yet, over a handler with the 512000-byte chunk size that initialize_modem gives it |
| FtpUploader.Uploader.InitializeModem | src/airbridge/ftp_uploader.py:61-89 | true iff `ModemHandler.NetworkSetup` succeeds on the modem's replies; the modem is set up whatever it returns, and the outbox is unchanged |
| FtpUploader.Uploader.CheckSignalQuality | src/airbridge/ftp_uploader.py:155-181 | without a modem (false, 0) and nothing sent; otherwise the verdict of `FtpUploader.SignalVerdict` on the modem's `AT+CSQ` reading, with the port and clock afterwards those of that transaction |
| FtpUploader.Uploader.Transfer | src/airbridge/ftp_uploader.py:127-136 | succeeds iff `ModemHandler.FtpUpload` with the configured retry policy succeeds on the modem's replies; success means the file existed and its progress record is cleared |
| FtpUploader.Uploader.UploadFile | src/airbridge/ftp_uploader.py:116-153 | true iff a modem exists and upload_ftp succeeds on the modem's replies; without a modem nothing is sent; the port and the progress file afterwards are those upload_ftp leaves; a success had the file and deletes it unless its deletion raises; a failure deletes nothing |
| FtpUploader.Uploader.UploadInOrder | src/airbridge/ftp_uploader.py:211-225 | the number of uploads that went through, the port, the progress file and the files afterwards are those of `FtpUploader.UploadRun` on the modem's replies, so the loop stops at the first failure (`FtpUploader.UploadRunStops`); true iff every file was uploaded, with one attempt per upload plus the failed one; exactly the uploaded files are deleted, except those whose deletion raises |
| FtpUploader.UploadRunStops | src/airbridge/ftp_uploader.py:211-225 | the first `done` uploads of the loop all went through, and unless every file did, the upload of the next file failed on the port the successes left and the loop ended right there |
| FtpUploader.UploadRunAppend | src/airbridge/ftp_uploader.py:211-225 | files after a failure are never attempted: more pending files change nothing once an upload failed, and otherwise they run on from where the loop ended |
| FtpUploader.SilentOutbox | src/airbridge/ftp_uploader.py:211-225 | against a modem that never answers, the first upload fails and nothing is uploaded |
| FtpUploader.Uploader.ProcessOutbox | src/airbridge/ftp_uploader.py:183-225 | the signal is good iff the modem was set up or setup_network succeeds on its replies, and the `AT+CSQ` reading then gives a good verdict; otherwise false with no upload attempted; with a good signal the pending files, oldest first, go through `FtpUploader.UploadRun` from the port the signal check left, and the result is true iff all of them went through; an empty list returns true |
| UsbManager.GadgetUdcState | src/airbridge/pi_usb_manager.py:78-91 | the stripped state file of the first controller; None when there is no controller or no state file |
| UsbManager.TrackIsNewest | src/airbridge/pi_usb_manager.py:113-116 | the recorded modification time never decreases; it is the newest of the starting time and every time polled, and is one of them |
| UsbManager.ActivityIsLatest | src/airbridge/pi_usb_manager.py:113-115 | with polls in clock order, the last activity is no older than the start nor than any poll that saw a newer modification time |
| UsbManager.QuietMeansNoRecentWrite | src/airbridge/pi_usb_manager.py:118-122 | a wait that ended on the quiet window saw no newer modification time in its last 30 s |
| UsbManager.CycleEndIsAfter | src/airbridge/pi_usb_manager.py:207-239 | where a cycle leaves the gadget and the mount is where its commands lead |
| UsbManager.CycleExclusive | src/airbridge/pi_usb_manager.py:213-235 | from an unmounted partition, a cycle never lends a mounted partition and never mounts it while it is lent; it ends mounted iff only the last unmount failed; the gadget is unloaded once the unload succeeded |
| UsbManager.MountedCycleLoads | src/airbridge/pi_usb_manager.py:213 | a cycle that starts with the partition mounted and whose modprobe succeeds lends it: right after the load the host has the partition and the Pi still has it mounted |
| UsbManager.FailedUnmountThenLoad | src/airbridge/pi_usb_manager.py:226-232 | a cycle whose final unmount fails leaves the partition mounted; when the next cycle's modprobe succeeds, right after it the host has the partition while it is mounted |
| UsbManager.GuardedExclusive | src/airbridge/pi_usb_manager.py:213-235 | the corrected cycle never shares the partition from any state where it is not both lent and mounted, and never ends both mounted and lent |
| UsbManager.GuardedEndIsAfter | src/airbridge/pi_usb_manager.py:207-239 | where the corrected cycle leaves the partition is where its commands lead |
| UsbManager.HeldCycle | src/airbridge/pi_usb_manager.py:254-261 | another corrected cycle keeps the run of commands exclusive |
| UsbManager.CleanupExclusive | src/airbridge/pi_usb_manager.py:241-247 | cleaning up never lends or mounts the partition |
| UsbManager.HeldCleanup | src/airbridge/pi_usb_manager.py:241-247 | cleaning up after exclusive cycles keeps the whole run exclusive |
| UsbManager.GadgetManager.constructor | src/airbridge/pi_usb_manager.py:33-35 | the flag is clear, the last modification time is 0, and no command has run |
| UsbManager.GadgetManager.LoadGadget | src/airbridge/pi_usb_manager.py:41-60 | the flag becomes set only when modprobe returns 0; a failure leaves it unchanged |
| UsbManager.GadgetManager.UnloadGadget | src/airbridge/pi_usb_manager.py:62-76 | the flag becomes clear only when `modprobe -r` returns 0; a failure leaves it unchanged |
| UsbManager.GadgetManager.MountPartition | src/airbridge/pi_usb_manager.py:132-151 | a partition still mounted is unmounted first, whatever the outcome; the result is the mount's exit status; the partition is mounted afterwards iff the mount worked or the stale unmount failed |
| UsbManager.GadgetManager.UnmountPartition | src/airbridge/pi_usb_manager.py:153-166 | the partition is unmounted iff umount returns 0 |
| UsbManager.GadgetManager.PollOnce | src/airbridge/pi_usb_manager.py:109-128 | a newer modification time is recorded with the poll's time; the wait ends on a quiet window, checked first, or when the UDC state is not `configured` |
| UsbManager.GadgetManager.WaitForQuietWindow | src/airbridge/pi_usb_manager.py:101-130 | ends at the first poll that is quiet for 30 s or sees the host gone, and none before; the recorded modification time is the tracked newest one and never decreases |
| UsbManager.GadgetManager.Lend | src/airbridge/pi_usb_manager.py:212-217 | loads the gadget and, only when that worked, waits for the quiet window from the load time, ending as `UsbManager.WaitEnds` says with the newest modification time it tracked; a failed load leaves that time untouched |
| UsbManager.GadgetManager.TakeBack | src/airbridge/pi_usb_manager.py:219-235 | unload, then mount, then unmount, stopping at the first failure; true iff all three worked |
| UsbManager.GadgetManager.RunDutyCycle | src/airbridge/pi_usb_manager.py:207-239 | false at the first failing step among load, unload, mount and unmount, true iff all worked; the harvest's result is ignored; the unload succeeds before the mount is attempted; the commands run and the resulting state are those of the cycle; the quiet-window wait runs iff the load worked, and the newest modification time it tracked carries over to the next cycle |
| UsbManager.GadgetManager.GuardedCycle | src/airbridge/pi_usb_manager.py:207-239 | the corrected cycle: a partition still mounted is unmounted before the gadget is loaded, and the cycle is skipped when that fails; the wait and the tracked modification time are those of the cycle as written whenever its load runs and works |
| UsbManager.GadgetManager.RunCycles | src/airbridge/pi_usb_manager.py:254-261 | any number of corrected cycles keeps the partition exclusive and never leaves it both mounted and lent |
| UsbManager.GadgetManager.Cleanup | src/airbridge/pi_usb_manager.py:241-247 | unloads only when the flag is set and unmounts only when mounted; the flag and the mount follow the exit statuses |
| UsbManager.GadgetManager.Serve | src/airbridge/pi_usb_manager.py:249-268 | the corrected service loop never shares the partition; a successful cleanup leaves it neither lent nor mounted |

## Findings

| source | as written | input that shows it | evidently intended | confidence | as-written member | corrected member |
|---|---|---|---|---|---|---|
| main.py:384-394 | the boot loop can end on an attempt that returned False at line 320 after keeping the disk mounted for a retry, and line 394 then loads the gadget on a locally mounted disk | mount works, the outbox holds an archive, and network setup fails on every attempt before the upload timeout until the boot timeout has passed | unmount the disk before loading the gadget when the last attempt kept it mounted | not executed | Airbridge.BootRetryThenLoad | Airbridge.Host.Service |
| main.py:208-210 | unmount_usb_disk (lines 109-114) ignores umount's exit status, and harvest_and_upload then loads the gadget whatever umount did, so a mount that survives the umount is lent to the host while the Pi still has it mounted | the mount works and the final `umount` fails, for instance because the mount point is busy | load the gadget only once the disk is unmounted | not executed | Airbridge.FailedUnmountShares | Airbridge.GuardedHarvestExclusive |
| src/airbridge/pi_usb_manager.py:226-232 | a failed unmount_image makes run_duty_cycle return False with the image still mounted, and the next cycle's load_gadget (line 213) lends the mounted image to the host; mount_image's stale-mount cleanup (lines 136-137) comes only later | cycle 1: load, unload and mount succeed, umount fails; cycle 2: modprobe succeeds | unmount a still-mounted image before loading the gadget, and skip the cycle when that fails | not executed | UsbManager.FailedUnmountThenLoad | UsbManager.GadgetManager.GuardedCycle |

Further members of these findings:
- **Boot loop.** `Airbridge.MainLoadsMountedDisk` states the general case. `Airbridge.StartKeeps` proves the corrected start exclusive. `Airbridge.Host.BootPhase` models the loop as written.
- **Harvest unmount.** `Airbridge.HarvestExclusive` states exactly when a harvest as written shares the disk. `Airbridge.GuardedHarvestTrace` is the corrected harvest. The service methods (`Airbridge.Host.HarvestAndUpload` and its callers) model the harvest as written.
- **Duty cycle.** `UsbManager.MountedCycleLoads` states the general case. `UsbManager.GuardedExclusive` and `UsbManager.GadgetManager.Serve` prove the corrected service exclusive. `UsbManager.GadgetManager.RunDutyCycle` models the cycle as written.

## Left out

- Serial I/O, byte timing and baud rates. The port is a script of text fragments, one per poll.
  - Text decoding with `errors='ignore'` is assumed to have already happened: fragments are strings.
  - `reset_input_buffer` has no effect, since nothing arrives between polls.
- Wall-clock time. Time is an integer millisecond clock advanced by the sleeps and the poll intervals.
  - The time spent inside a poll and inside subprocess calls is not counted.
  - Python's float seconds are not modelled.
- Subprocess calls, `os.sync`, sysfs reads and directory listings. Their exit statuses and contents are inputs.
- The JSON encoding of the progress file, YAML configuration loading (`load_config` and its defaults), logging and printing.
- Exceptions. The `except` paths of get_pending_files, upload_file, check_signal_quality and the monitor loop (main.py:464-466) are not modelled. The raises of `os.path.getsize` on a listed file that is missing are covered by the three lines below that start with the members they affect. An exception raised while deleting a file after an upload is modelled by the uploader's set of files whose deletion raises. KeyboardInterrupt is not modelled.
- harvest_files in pi_usb_manager.py: it builds a zip archive. Its result is ignored by run_duty_cycle, so the cycle models it as a step with no effect.
- Unused or diagnostic parts:
  - main.py's upload_file (214-246), is_gadget_loaded and get_modem;
  - ftp_uploader.py's cleanup_modem and run_continuous;
  - the web dashboard, monitor scripts and tests.
- Infinite loops become finite runs:
  - `Airbridge.Host.Monitor` runs over a finite sequence of polls;
  - `UsbManager.GadgetManager.Serve` runs over a finite sequence of cycles followed by cleanup;
  - `UsbManager.GadgetManager.WaitForQuietWindow` runs over a finite sequence of polls and reports not quiet when they run out without the wait ending.
- The host's files are a map from path to bytes. The directory listings the scans read are inputs, and are not derived from that map.
- FtpUploader.Uploader.ProcessOutbox: `os.path.getsize` at ftp_uploader.py:213 raises FileNotFoundError for a listed file that is not on the disk. Nothing in process_outbox catches that raise. The model has no exception path: the upload of that file fails as `FileNotFound`, counts as one attempt and stops the loop with the result false.
- Airbridge.Host.StartupUploadPhase: the `os.path.getsize` calls at main.py:303 raise for a pending archive that is not on the disk. Nothing on the path through main.py:383-386 catches that raise, so the service stops before it loads the gadget. The model instead skips the file at the existence check of main.py:336. In the source, that skip is reached only when a file disappears between lines 303 and 336.
- Airbridge.Host.HarvestAndUpload: `os.path.getsize` at main.py:148 raises for a scanned file that is not on the disk. Only the monitor loop catches it (main.py:464-466), which leaves the disk mounted and the gadget unloaded. The model lets that file's upload fail and goes on to unmount and reload the gadget.
- Airbridge.Host.HarvestAndUpload: load_usb_gadget's result (main.py:210) and `modprobe -r`'s result are not checked by the source. The model records both as actions that take effect, so a failed `modprobe` or `modprobe -r` is not modelled.
- Airbridge.Host.Service: the load at main.py:394 is checked, and a failure gives exit code 1. The action trace still records that load as taking effect, so its safety claim counts every load attempt as lending the disk.
- FtpUploader.PendingFiles: states the oldest-first order and the permutation. It does not state that Python's stable sort keeps listing order among equal modification times.
- ModemParse.SessionConfig: its contract states the number of commands and the APPE/STOR choice. The exact texts of the other nine commands are only in its definition.
- Text.ParseInt: rejects digit-group underscores (`int("1_000")`) and non-ASCII decimal digits, both of which Python's `int()` accepts. `strip()` and `split()` do use Python's full white space set.
- Airbridge.Host.Watch, Airbridge.Host.Monitor, Airbridge.Host.Attempt, Airbridge.Host.BootPhase and Airbridge.Host.Service: the disk is proved exclusive only for runs in which no umount left the disk mounted. Each umount's outcome is an input, because the source never checks it. Runs where an umount fails are characterised by `Airbridge.HarvestExclusive` and `Airbridge.PhaseExclusive`, and are listed under Findings.
