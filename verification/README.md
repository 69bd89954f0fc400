# UCMQ message store, verified

A Dafny model of the storage core of the UCMQ message queue server, and proofs about it: the
segmented message log with its journal and recount, the uthash table behind the queue list, the
variable expansion of the ini reader, and the two lock-free protocols of the logger.
`dafny verify dfyconfig.toml` checks everything.

## What is modelled

**The message log.** A queue is a chain of segment files of one fixed size (a parameter between 141
bytes and 64 MiB), a write cursor and a read cursor. A message is framed as
`FE AC | time4 | crc2 | len4 | body`; the writer moves to a new segment when a frame does not fit,
the reader skips garbage byte by byte and removes segments behind itself. A text journal of 61-byte
lines records cursors and settings and is read backwards at restart.

- `Bytes`, `Crc16`, `Message`, `Segment`: images of integers, the checksum against bit-serial
  division, frames and the parser with its uint32 sums written out, segments as sequences of good
  and damaged chunks, the counting scan.
- `Store` is the log as a state machine on values, written after the C functions branch by branch.
  `MessageQueues` is the same log as the C program has it: a class whose fields are reassigned, with
  segment files as arrays on a disk, mappings that alias those arrays, and a ghost set of live
  mappings; every method is proved equal to its function in `Store`.
- `Fifo`, `Runs`: what one put or get does to the chunks in the files, and that any run of requests
  is answered as a plain FIFO in memory would answer it (`Runs.Memory`, the independent reference).
- `DamageTolerance`: what damaged frames cost. `Journal`, `Recovery`, `Recount`: journal lines and
  torn journals, restart, recount. `Crash`: a process that stops inside a journal line. `Restarts`:
  one process after another, as their clients see it. `Stops`: the same with stops at any byte of a
  line. `HeadStart`: a stop before the first journal line. `Twins`, `Orphan`: a stop between a frame and
  its line, and what the bytes behind the write position do to later runs.
- `SegmentNames`, `Decimal`, `Strings`: the numbers in file names and journal fields, tokens.

**uthash.** `StableMerge` is bottom-up merge sort on sequences with its three theorems;
`HashSort` is `HASH_SRT` relinking a doubly linked list and refining it. `HashTable` is the table:
bucket chains, application-order list, doubling. The table is one object here; in C it is a block
that exists while the list is not empty, so the fields mean something only while `head` is set.
The hash is an arbitrary function of the key. `HashSizing` has its arithmetic.

**ini expansion.** `IniExpand` has `find_token` and `replace_in_line` over a character array and the
substitution on strings (`ScanFrom`) they refine; what that substitution means is stated as rewriting, and
what `replace_var` makes of a whole table as equations between the old table and the new one.

**Logging.** `LogProtocols` is a state machine whose steps are the atomic accesses of `log_init` and
of the rotation section of `log_write_impl`, interleaved in any order by any number of threads.

The requests are those of `mq_qm_push_item`, `mq_qm_pop_item`, `init_queue` and the setters of
source/mq_queue_manage.c, lines 310 to 478; the table cites the store functions they call and the
handlers that call them.

Clocks, request arguments, directory listings, fork and thread ids and the outcome of `mkdir` and of
opening the log file are parameters.

## Results about the code that a reader should know

- A stop between two requests goes unnoticed by every later client if and only if the queue had
  changed a setting or accepted a message before (`HeadStart.StopUnnoticedIff`): `mq_sm_creat_db`
  journals the positions while they are still 0, so the restarted writer begins inside the file head.
- A restarted process counts the frames of its write segment from zero, and seals it with that count.
  The head then recounts right if and only if the process wrote no frame there or all of them
  (`Recount.SealAfterRestart`). A later restart goes unnoticed if and only if nothing is pending or all
  heads are honest (`Restarts.UnnoticedIffHonest`, `Restarts.SecondStopIff`); otherwise the queue
  reports its end too early.
- Torn journals: two complete lines are always enough to go back to. One line alone is not: reading
  restarts at the start of the segment, with the default settings. The journal is only appended to, so
  one line behind an older fragment is misread after a second tear (`Journal.SecondTear`,
  `Recovery.SecondTearRestart`, `Crash.SecondTearWithholds`): the last complete line comes back if and
  only if it is anchored (`Journal.RestoredIffAnchored`).
- A put that is stopped behind its frame and before its journal line leaves no trace if and only if its
  frame stands right behind the head of its segment, the recounted number is that of the pending
  messages, and no message can be parsed in its body from the second byte on (`Orphan.OrphanIff`); with
  honest heads the first two say that it was the first frame of the only segment
  (`Orphan.OrphanIffAlone`). Behind other messages the next message that does not fit seals it in, and it
  is handed out after all; with older segments the recount counts it, and a limited queue is full too
  early (`Orphan.OrphanSeen`); a message inside the body is handed out although nobody has put it
  (`Orphan.OrphanUncovers`).
- A restart that counts too few delays the newest messages by that number, but loses, repeats and
  reorders none (`Runs.MemoryConserves`, `Runs.MemoryCounts`); nor do any number of stops between requests,
  inside journal lines or inside the line of a rotation, as long as two lines are written between two tears
  (`Stops.StopsLoseNothing`).
- Segment names sort as their numbers exactly up to 10^12 - 1 (`SegmentNames.NameOrder`,
  `SegmentNames.OrderBreaksAtTrillion`).
- A successful expansion can still contain a closed reference, as for `$$(a))` with a value of `a`
  that starts with a parenthesis. It cannot, for plain tables, if and only if no value is empty or
  starts with a parenthesis (`IniExpand.SettledIffClean`).
- A delay is compared as an unsigned difference: a clock that is set back behind the time of a put releases
  the message at once, for every delay of less than 2^31 (`Runs.DelayHolds`). A lock whose end passes 2^32
  starts over at 0 and is none (`Runs.PutIsAnswered`).
- Once `log_init` has stored the process id, all threads rotate under that one id: a thread that finds
  another one in the section takes this for its own re-entry and drops its line at once, instead of waiting
  (`LogProtocols.AloneInitialises`, `LogProtocols.AloneGivesUp`).
- When `mkdir` fails in `log_init`, threads waiting for it never return unless some thread calls
  `log_init` again, and then they can (`LogProtocols.WaiterLeavesIff`, `LogProtocols.NewCallReleases`).
- The comment of `source/crc16.c:13` names X16 + X12 + X5 + X0. The table is that of the reflected
  polynomial 0xA001, as line 12 has it; the model follows the table.

## Model

| member | source | states |
|---|---|---|
| Crc16.TableCorrect | source/crc16.c:14-47 | each of the 256 literal entries is eight steps of division by the reflected polynomial 0xA001 |
| Crc16.TableRound | source/crc16.c:58-61 | one round of the table loop divides by one whole byte, whatever the register holds |
| Crc16.Crc16Append | source/crc16.c:49-65 | the loop over the buffer returns the bit-serial remainder of exactly those bytes; the incoming accumulator has no influence |
| Crc16.AdjacentDamageDetected | source/crc16.c:49-65 | replacing two adjacent bytes by any other pair, anywhere in any string, changes the checksum |
| Crc16.SingleDamageDetected | source/crc16.c:49-65 | replacing any one byte changes the checksum |
| Message.ParseMsgAt | source/mq_store_msg.c:25-82 | the parser over the mapped array is the parser on its contents, uint32 wrap-around and the signed length test included |
| Message.ParseFrame | source/mq_store_msg.c:25-82 | a written frame parses back to its message at any place and with any surroundings |
| Message.ParseDecides | source/mq_store_msg.c:42-81 | the answer for arbitrary bytes, over the integers: too close to the end is beyond; a length that ends inside the segment leaves the answer to the checksum, one that ends outside is beyond, and one whose sum with the position reaches 2^32 is taken for a bad checksum |
| Message.ParseStaysInside | source/mq_store_msg.c:60-65 | for arbitrary bytes, a length that passes the wrapping bound and the signed test stays inside the mapping over the integers |
| Segment.FreshHoldsNothing | source/mq_util.c:40-68 | a newly created segment contains no message and nothing the reader could take for one |
| Segment.AppendFrame | source/mq_store_msg.c:136-150 | writing a frame behind the last one adds that message and leaves every other where it was |
| Segment.RewriteHead | source/mq_store_msg.c:102-117 | rewriting the head leaves every message of the segment |
| Segment.BodyDamageIsDead | source/mq_store_manage.c:99-108 | a frame with intact length whose checksum notices the new body, and without a second magic pair, yields no message and is passed over exactly |
| Segment.DamageKillsOne | source/mq_store_manage.c:99-108 | after such damage every other message of the segment is still found, in order |
| Segment.CalMsgCount | source/mq_store_msg.c:186-244 | the scan loop over the mapping equals the counting function, for arbitrary contents |
| Segment.ScanIsExact | source/mq_store_msg.c:204-240 | from byte 0 to the write position or to the file end the scan counts exactly the intact messages of the segment |
| Segment.ScanDecides | source/mq_store_msg.c:204-240 | one round for arbitrary bytes, over the integers: a message counts once, a magic pair without one costs two bytes whatever its length says, any other byte one |
| Decimal.PaddedValue | source/mq_store_rtag.c:170-176 | a zero-padded field reads back as its number |
| Decimal.StrToNum | source/mq_store_rtag.c:243-266 | succeeds on all-digit text and only there, with the decimal value modulo 2^32 |
| Journal.ParseFields | source/mq_store_rtag.c:279-295 | the six fields of a token, or nothing when any of the sixty characters is no digit |
| Journal.ParseRtagItem | source/mq_store_rtag.c:269-312 | the token loop finds the record the specification finds |
| Journal.RtagReadItem | source/mq_store_rtag.c:103-162 | the backward seek loop returns the record, the fallback and the write position of the specification for any file |
| Journal.LineRoundTrip | source/mq_store_rtag.c:164-193 | all six fields survive printing and parsing, a lock value of -1 included |
| Journal.LineShows | source/mq_store_rtag.c:170-177 | which decimal number stands in which ten characters of the line, the lock modulo 2^32 |
| Journal.CleanTail | source/mq_store_rtag.c:103-141 | a journal that ends in a complete line restores that line and keeps its write position |
| Journal.ImplausibleLine | source/mq_store_rtag.c:197-241 | a last line that counts more messages than a segment could hold heads, or a position behind its end, is passed over: the line before it comes back with the write position at the end of the segment; any other last line is restored |
| Journal.MissingNewline | source/mq_store_rtag.c:103-141 | a line torn just before its newline restores the new record |
| Journal.TornLine | source/mq_store_rtag.c:115-161 | after a tear inside a line, for arbitrary bytes in front of the last complete line: the fallback when they are too few, else the token that the second round makes of them, else what the third round on finds |
| Journal.RestoredIffAnchored | source/mq_store_rtag.c:115-141 | after such a tear the last complete line is restored, whatever it says, if and only if a newline stands in front of it, the second round reaches back to that newline, and no NUL lies in between |
| Journal.SecondTear | source/mq_store_rtag.c:75 | a line written behind an older fragment of any length and followed by a second tear is read as one token with that fragment: its first sixty digits are restored whenever they are plausible |
| Journal.SecondTearMisread | source/mq_store_rtag.c:269-312 | a failing input: behind a fragment of ten bytes every number of the last line is restored as the next field |
| Journal.TornRecovery | source/mq_store_rtag.c:103-162 | for every tear position from 0 to 60 and arbitrary older bytes: the new record, the last complete one (with the write position at the end of the segment after a tear inside the line) when two lines stand there or the one is anchored, and otherwise the record of `TornLine` |
| Store.GetData | source/mq_store_manage.c:58-133 | the read loop ends for arbitrary segment contents, with cursors inside their files and the files of the queue still complete |
| Fifo.GetDelivers | source/mq_store_manage.c:53-134 | nothing pending: end of queue; message too young (what that means over the integers: `Fifo.ReaderDecides`, `Runs.DelayHolds`): stays; otherwise the first pending message is delivered and all others stay pending in order, over any garbage and any number of segments |
| Fifo.ReaderDecides | source/mq_store_manage.c:58-133 | one round of the read loop for arbitrary bytes, over the integers: the end, a message held back or handed out, one byte or two skipped, or the next segment |
| Fifo.PutAppends | source/mq_store_msg.c:120-158 | put adds its message behind everything pending, with rotation or without |
| Fifo.PutFits | source/mq_store_msg.c:120-158 | a frame that ends within the segment is written behind the last one, changing no other byte and no other file |
| Fifo.PutTurns | source/mq_store_file.c:211-261 | any other frame goes behind the head of a new file of zeros; the old file changes only in its head, which gets the count; one journal line is written |
| Fifo.HeadShows | source/mq_store_msg.c:102-117 | version digit, the count in twelve decimal digits, zeros |
| Fifo.PutExact | source/mq_store_file.c:211-261 | put keeps the counts of both cursors and the heads from ever announcing too many messages |
| Fifo.PutRight | source/mq_store_msg.c:125-135 | put keeps every sealed head right, or silent, unless it seals a segment with the count of some of its messages only |
| Fifo.EndOfSegment | source/mq_store_manage.c:119-127 | with no message left in an older segment the reader reaches the next segment |
| Fifo.EnterNextSegment | source/mq_store_file.c:128-208 | removing the segment behind the reader loses no pending message |
| Runs.OneServed | source/mq_store_manage.c:34-134 | from any state whose files hold messages, damaged chunks included and with any value of the unread counter, any one request is answered as the FIFO in memory answers it, and both stay in step; what its delay and lock mean is stated by the next three |
| Runs.DelayHolds | source/mq_store_manage.c:81-90 | a message put at second t is withheld at second now >= t if and only if now - t is less than the delay; when the clock has been set back behind t, if and only if the delay exceeds 2^32 less the difference |
| Runs.PutIsAnswered | source/mq_evhttp.c:923-969 | the reply to a put after a lock request for n seconds at second t and any other requests: bad length, full, locked, accepted, in this order; locked while now < t + n, for ever for 2^32 - 1, never for 0; what a sum beyond 2^31 or 2^32 does |
| Runs.LogHoldsAndLocks | source/mq_store_manage.c:34-134 | the log gives the same replies, from any state whose files hold messages |
| Runs.RunRefinesFifo | source/mq_store_manage.c:34-134 | the same over every run of puts, gets and setting changes and any number of rotations |
| Runs.MemoryConserves | source/mq_store_manage.c:92-97 | in the reference FIFO, whatever its counter says, what was stored and accepted is what was delivered and is left, in order |
| Runs.MemoryCounts | source/mq_store_manage.c:92-97 | a counter that is too small stays too small by the same number over every run, so that many of the newest messages come late and none is lost; a right one stays right |
| Runs.GetsGive | source/mq_store_manage.c:61-97 | without a delay, gets hand out exactly as many of the first items as the counter announces and as there are, and then report the end |
| Runs.UnreadShows | source/mq_store_manage.c:61-97 | every wrong value of the counter shows in the replies of some run, which stores nothing |
| Runs.NewQueueAnswersAsFifo | source/mq_store_manage.c:34-134 | seen from outside: over every run of requests a new queue gives the replies of an empty FIFO in memory |
| Runs.NewQueueIsFifo | source/mq_store_manage.c:232-306 | over every run of a new queue the accepted bodies are the delivered ones followed by the pending ones, and unread count = pending = put number - get number |
| DamageTolerance.DamageLosesOne | source/mq_store_manage.c:99-108 | overwriting one unread frame with dead bytes of the same length loses that message and no other, in a state from which every run is again a FIFO run |
| DamageTolerance.AdjacentBytesDamage | source/mq_store_msg.c:71-81 | changing one or two adjacent body bytes of a stored frame is such damage, if no magic pair arises in it |
| Recovery.GetWrites | source/mq_evhttp.c:1025-1050 | a get within one segment appends one journal line if it hands out a message and none otherwise; one that goes on to a later segment starts a new journal |
| Recovery.GetJournalled | source/mq_store_file.c:163-179 | before its line is written, a get leaves a journal whose last line still resumes before every message that was pending |
| Recovery.PutJournalled | source/mq_store_file.c:256-258 | the same for put, its new message included |
| Recovery.RestartResumes | source/mq_store_rtag.c:103-162 | a stop after any number of bytes of a journal line, behind any journal, restores the surviving record; when that is the last complete line, or the journal is too short to go back, the same segments are stored, the reader stands where the line says, or at their start, and after a tear nothing is ever written over |
| Recovery.RestartStaysInside | source/mq_store_rtag.c:103-162 | arbitrary journal bytes leave the restored cursors inside their files, so every request on the restarted queue is defined and ends |
| Recovery.SecondTearRestart | source/mq_store_rtag.c:279-305 | the failing input on a queue: reading resumes at the byte numbered as the messages read so far, the limit becomes the write position, the delay the limit, the lock the delay |
| Recount.FileCountExact | source/mq_store_manage.c:386-413 | a segment whose head is right or empty contributes exactly its messages, by head or by scan |
| Recount.HeadBelieved | source/mq_store_manage.c:385-412 | a number in the head counts if it is positive and less than a segment could hold heads; otherwise the file is scanned |
| Recount.RecountFills | source/mq_store_manage.c:339-432 | a counter that is not zero is kept; otherwise unread + read = total, or nothing is unread when the cursor has counted more than the files hold |
| Recount.SealAfterRestart | source/mq_store_msg.c:102-117 | a head sealed with the count of one process run is harmless if and only if that run wrote none or all of the frames |
| Recount.TotalIsRange | source/mq_store_manage.c:355-423 | the total does not depend on the order in which the directory is listed |
| Recount.TotalExact | source/mq_store_manage.c:325-424 | the recount finds exactly the messages in the files |
| Recount.RecountExact | source/mq_store_manage.c:426-429 | the recounted unread number is the number of messages still to be delivered |
| Recount.TotalUnder | source/mq_store_manage.c:386-413 | with heads that announce too few the recount finds too little, and everything exactly when each announced count is what a scan of its file finds |
| Recount.UnreadIff | source/mq_store_manage.c:426-429 | the recounted unread number is right if and only if nothing is pending or the heads are honest in that sense; it is never too large |
| Crash.CrashInPut | source/mq_store_rtag.c:103-193 | from every state of a run: after a stop inside the journal line of a put every later run is answered as a FIFO of exactly what was pending and the new message, if and only if the heads announce what scans find, and then the counters are right; the settings are kept with two lines to go back to or a rotation in that put, and are the defaults otherwise |
| Crash.CrashInGet | source/mq_store_rtag.c:103-193 | the same for a get: the message being handed out is pending again, unless its line was complete but for the newline; if and only if nothing is pending then or the heads are honest; the settings are kept when the reader stays in its segment and two lines are there |
| Crash.RunStaysRestartable | source/mq_store_rtag.c:164-193 | over every run of requests, from such a state, the replies are those of the FIFO and the state is one to which the two crash results apply; heads stay right as long as no segment is sealed with a partial count, and within one process none is |
| Crash.TornThenSet | source/mq_store_rtag.c:75 | how a fragment gets in front of the only line to go back to: a torn put, a restart, one changed setting |
| Crash.SecondTearWithholds | source/mq_store_rtag.c:279-305 | what a client sees of a second tear there: a queue without delay withholds its first message, because the limit has become the delay, whatever the recount finds |
| Restarts.FirstLine | source/mq_store_rtag.c:164-193 | the first request that journals brings a new queue into a run that can be restarted |
| Restarts.ManyProcesses | source/mq_store_rtag.c:103-193 | a new queue that has journalled anything, stopped between requests and restarted any number of times: all processes together answer what one FIFO answers that never stopped, if no process but the last seals a segment with the count of some of its messages only |
| Restarts.UnnoticedIffHonest | source/mq_store_manage.c:325-433 | however segments were sealed, every run after a restart agrees with the FIFO if and only if nothing is pending or every announced count is what a scan finds |
| Restarts.SecondStopIff | source/mq_store_msg.c:102-117 | the same for the second stop of a new queue whose second process sealed as it liked |
| HeadStart.HeadStartShows | source/mq_store_manage.c:294-305 | a queue restarted before its first own journal line writes from byte 0: for every segment size a run is given whose last get loses the first message |
| HeadStart.StopUnnoticedIff | source/mq_store_manage.c:294-305 | every later run agrees with the FIFO that never stopped if and only if some request before the stop changed a setting or was an accepted put |
| Stops.OneKept | source/mq_store_rtag.c:164-193 | one request behind any number of tears: answered as the FIFO answers it, the journal stays readable, and each line it writes counts towards the two that the next tear needs |
| Stops.RestartKept | source/mq_store_rtag.c:103-162 | a restart between two requests, behind a fragment or not, keeps what is pending and the lines since the last tear |
| Stops.TornKept | source/mq_store_rtag.c:103-162 | a stop after any byte of the line of a put, a get or a setting, with two lines since the last tear: the restarted queue is again such a state, with the message of the put, and without that of the get only if its line was complete but for the newline |
| Stops.TurnKept | source/mq_store_file.c:256-258 | the same after any byte of the line that a rotation writes, with the new segment already there: what was pending is pending, and the message of the put is not stored |
| Stops.GetUnlogged | source/mq_store_file.c:163-179 | a get that has moved its reader and has not begun its line leaves a journal that still promises everything that was pending, behind a fragment or not, and loses no line |
| Stops.OneLife | source/mq_store_rtag.c:75 | one process between two restarts: what was pending and what it stored is what it took out and what is pending then, and it answers as a FIFO of what it found, whose counter is right if and only if nothing was pending or the heads were honest |
| Stops.StopsLoseNothing | source/mq_store_rtag.c:75 | a new queue that has journalled anything and any number of processes after it, each stopped between requests, before the line of a get or a setting, or at any byte of the line of a request or of a rotation with two lines since the last tear: nothing stored is lost, repeated or reordered, whatever the heads announce |
| Orphan.OrphanRestart | source/mq_store_msg.c:140-155 | a stop between the last byte of a frame and the first of its journal line: the restarted queue is the one restarted without that put, but for the frame behind its write position |
| Twins.SealedRun | source/mq_store_manage.c:86-127 | bytes behind the frames of a sealed segment change no reply of any run, if no message can be parsed in them, whatever else the parser makes of them |
| Twins.MuteRun | source/mq_store_msg.c:125-155 | the same for bytes behind the write position: through every put that covers some of them and the rotation that seals the rest |
| Orphan.OrphanUnnoticed | source/mq_store_msg.c:136-155 | bytes behind the restarted write position, such as a whole or partial frame, change no reply of any run whose first accepted message fits into the segment, if no message can be parsed from their fourteenth byte on; the counter may have any value |
| Orphan.OrphanReturns | source/mq_store_msg.c:125-135 | if that message does not fit, the frame is sealed into its segment and its message stands in the queue after all, right before the new one |
| Orphan.RotatedRuns | source/mq_store_msg.c:125-135 | a rotation journals a line of its own, so a put that rotates and stops before its own line is one that stops in an empty segment |
| Orphan.OrphanRecount | source/mq_store_manage.c:401-412 | the recount after such a stop is right when there is one segment only, because it ends at the write position; with older segments and honest heads it scans the frame as well and is one too large |
| Orphan.OrphanIff | source/mq_store_manage.c:401-429 | for every message: after restart and recount every run is answered as if that put had never been asked, if and only if the frame stands right behind the head of its segment, the recounted number is that of the pending messages, and no message can be parsed inside the frame from the second byte of its body on |
| Orphan.OrphanIffAlone | source/mq_store_manage.c:401-429 | with honest heads, if and only if the put did not rotate, there was one segment, nothing had been written into it, and no message can be parsed there |
| Orphan.OrphanSeen | source/mq_store_msg.c:125-135 | the failing replies: behind other messages a get returns the message that was never acknowledged where the FIFO has a later one; right behind the head, with older segments, a limited queue answers full where the FIFO accepts |
| Orphan.OrphanUncovers | source/mq_store_msg.c:120-150 | why the body matters: wherever a message can be parsed in it behind its first byte, a run is given in which a short message ends right there and a get returns that message, which nobody has put |
| Orphan.FrameInside | source/mq_store_msg.c:25-82 | a frame anywhere in the body behind its first byte is such a message |
| Orphan.NoMagicIsHarmless | source/mq_store_msg.c:47-48 | a body without 0xAC behind its first byte holds none |
| MessageQueues.WriterMoves | source/mq_store_file.c:219-254 | rotation of the writer keeps the mapping invariant, the old mapping going exactly when the reader is elsewhere |
| MessageQueues.ReaderMoves | source/mq_store_file.c:181-205 | moving the reader on keeps the mapping invariant: shared mapping exactly on a shared segment, no other mapping alive |
| MessageQueues.MessageQueue.constructor | source/mq_store_manage.c:232-306 | creation leaves one mapping, shared by both cursors, and the state `Store.Create` |
| MessageQueues.MessageQueue.Open | source/mq_store_manage.c:154-214 | for arbitrary journal bytes, restart maps one file or two, and leaves the state restored from journal and file numbers |
| MessageQueues.MessageQueue.GetNextWriteFile | source/mq_store_file.c:211-261 | the in-place rotation equals its specification and keeps the mapping invariant |
| MessageQueues.MessageQueue.GetNextReadFile | source/mq_store_file.c:128-208 | the in-place switch of the reader equals its specification, unmapping and removing exactly the old segment |
| MessageQueues.MessageQueue.WriteFileHead | source/mq_store_msg.c:102-117 | only the head of the mapped write segment changes |
| MessageQueues.MessageQueue.PutData | source/mq_store_manage.c:34-51 | six memcpy through a possibly shared mapping equal `Store.PutData`, every other file untouched |
| MessageQueues.MessageQueue.GetData | source/mq_store_manage.c:53-134 | the loop over the mapping terminates and equals `Store.GetData`, each round of which `Fifo.ReaderDecides` states over the integers |
| MessageQueues.MessageQueue.Put | source/mq_evhttp.c:923-969 | length guard, limit, lock, write, journal line and count, in one state equation; the reply over the integers is that of `Runs.PutIsAnswered` |
| MessageQueues.MessageQueue.Get | source/mq_evhttp.c:1025-1050 | a line is journalled only for a successful get |
| MessageQueues.MessageQueue.SetMaxQueue | source/mq_evhttp.c:1217 | the new limit and its journal line, nothing else |
| MessageQueues.MessageQueue.SetDelay | source/mq_evhttp.c:1277 | the new delay and its journal line, nothing else |
| MessageQueues.MessageQueue.SetLock | source/mq_evhttp.c:1336 | lock for ever, unlock or lock for some seconds, with the int conversion, and its journal line; how long puts are then refused: `Runs.PutIsAnswered` |
| MessageQueues.MessageQueue.GetMsgCount | source/mq_store_manage.c:325-433 | the directory loop sets the counters to those of `Recount.Recounted` |
| MessageQueues.MessageQueue.CloseDb | source/mq_store_manage.c:216-230 | afterwards no mapping is alive: every mapping made was unmapped once |
| SegmentNames.NameOrder | source/mq_store_file.h:50-66 | how strcmp orders any two segment names, in terms of their numbers and widths |
| SegmentNames.SmallNamesOrdered | source/mq_store_file.c:312-318 | below 10^12 name order is number order |
| SegmentNames.OrderBreaksAtTrillion | source/mq_store_file.c:312-318 | the name of 10^12 sorts before that of its predecessor |
| SegmentNames.GetIdByFname | source/mq_store_file.c:374-393 | the strtok loop returns the number in the last token |
| SegmentNames.IdInverts | source/mq_store_file.c:374-393 | it reads back the number of every generated name, up to the largest value of atoll |
| SegmentNames.FindHandleFile | source/mq_store_file.c:264-369 | fails exactly when a kind of file is missing or journal and oldest segment disagree; otherwise a least and a greatest segment name. Of several journals one with a size, or the first, is kept, and none with a size sorts behind it; only journals are removed, and when no name is listed twice, exactly the others, once each |
| SegmentNames.ScanPicksEnds | source/mq_store_file.c:286-318 | for every listing order the least number becomes the read segment and the greatest the write segment |
| StableMerge.SortPermutes | source/uthash.h:690-767 | the sorted list is a permutation, for any comparison function |
| StableMerge.SortSorts | source/uthash.h:690-767 | it is sorted, for an order that is total on its elements |
| StableMerge.SortStable | source/uthash.h:690-767 | elements the order does not tell apart keep their relative places |
| StableMerge.SortIsStable | source/uthash.h:690-767 | the three together for runs that start with single elements |
| HashSort.MergePair | source/uthash.h:713-751 | relinking two neighbouring runs yields their merge behind the list built so far, consistent in both directions |
| HashSort.MergePass | source/uthash.h:700-755 | one pass over the list is one pass of the specification; at most one merge exactly when two runs cover the list |
| HashSort.HashSrt | source/uthash.h:690-767 | the passes end, and next, prev, head and tail are those of the sorted sequence |
| HashSizing.MaskIsRemainder | source/uthash.h:177-180 | masking with a power of two less one is the remainder |
| HashSizing.IdealIsCeiling | source/uthash.h:648-650 | the shift-and-mask value is the number of elements over the new number of buckets, rounded up, and never zero when used as a divisor |
| HashSizing.LoadIsBounded | source/uthash.h:589-591 | a balanced table holds at most 19 elements a bucket, and the ideal chain of its next expansion is at most the threshold of 10 |
| HashSizing.SpreadBalances | source/uthash.h:660-664 | with such an ideal length the multipliers set by an expansion make the table balanced again |
| HashTable.PushFront | source/uthash.h:583-588 | an element goes to the front of a chain, links consistent in both directions |
| HashTable.Unlink | source/uthash.h:597-606 | an element leaves its chain, the rest in order |
| HashTable.FindInBkt | source/uthash.h:568-580 | an element of the chain with that key, or none exactly when there is none |
| HashTable.MoveOne | source/uthash.h:657-671 | one element goes to the bucket its hash value names among the new ones; counts, multipliers and surplus stay right |
| HashTable.MoveAll | source/uthash.h:652-674 | every element ends in exactly one new chain, and the surplus is the sum over buckets of the counts above the ideal |
| HashTable.DeleteUnbinds | source/uthash.h:194-227 | removing an element unbinds its key and changes no other binding |
| HashTable.ExpandBalances | source/uthash.h:637-683 | doubling a balanced table that has just outgrown a bucket leaves it balanced |
| HashTable.HashTable.Find | source/uthash.h:84-95 | find returns the element bound to the key, or nothing exactly when the key is absent |
| HashTable.HashTable.MakeTable | source/uthash.h:130-150 | an empty table of 32 buckets |
| HashTable.HashTable.AddToBkt | source/uthash.h:583-593 | the bucket grows by one and nothing else changes, or, exactly when it reaches ten times its multiplier plus one and growth is not inhibited, the table doubles with the counters of an expansion; balance is kept |
| HashTable.HashTable.ExpandBuckets | source/uthash.h:637-683 | twice the buckets, same elements, ideal length, surplus, count of ineffective expansions and inhibition as defined |
| HashTable.HashTable.Add | source/uthash.h:155-175 | order list = old list and the element, map = old map and the binding, both structures well formed; the table is the old one, or 32 empty buckets, after one push into the bucket of the key |
| HashTable.HashTable.Delete | source/uthash.h:194-227 | order list and map without the element; one bucket counts one less and no other number changes; the table disappears with its last element |
| HashTable.HashTable.Sort | source/uthash.h:690-767 | only the order changes, to the sorted one; the map and all chains stay |
| HashTable.HashTable.CountsAgree | source/uthash.h:168-173 | element count = list length = sum of bucket counts, and an element is in a chain exactly when its hash value names the bucket |
| HashTable.HashTable.LoadFactor | source/uthash.h:618-622 | as long as growth is not inhibited, after any history of adds, deletes and sorts, at most 19 elements a bucket |
| IniExpand.Splice | source/ini.c:531-547 | the tail moves, the value is copied in, the string is terminated, and nothing outside the buffer is touched |
| IniExpand.CloseToken | source/ini.c:515-549 | the closing parenthesis: unknown or ambiguous name, overflow, or replacement with exact length bookkeeping |
| IniExpand.FindToken | source/ini.c:472-561 | the in-place recursion agrees with the substitution on strings; on success the length kept by hand is the string length and below the buffer size |
| IniExpand.ExpandFromFirst | source/ini.c:574-592 | starting at the first reference equals expanding the whole line |
| IniExpand.ReplaceInLine | source/ini.c:563-607 | the result, or the error, is that of the substitution of the whole line |
| IniExpand.LimitsOnlyReject | source/ini.c:491-498 | more tokens or a larger buffer never change a result, they only let more lines through |
| IniExpand.ReplaceOne | source/ini.c:502-549 | a plain reference is rewritten to its value followed by the unscanned rest, at the cost of one token |
| IniExpand.ExpandRewrites | source/ini.c:472-561 | for clean values, expansion is rewriting: the result is reached by replacing the first closed reference over and over, and it is the only text without closed references that is reached |
| IniExpand.OneReference | source/ini.c:502-549 | a line with one reference: unknown or ambiguous name, no room, or the value in its place |
| IniExpand.BudgetSuffices | source/ini.c:490-498 | with room enough, a line of n references is expanded if and only if n is at most 1022 |
| IniExpand.SelfReferenceFails | source/ini.c:491-543 | a variable that refers to itself ends in the token limit or in overflow, whatever surrounds the reference |
| IniExpand.SettledIffClean | source/ini.c:502-556 | for tables whose keys a reference can spell and whose values hold no reference: every successful expansion is free of closed references if and only if no value is empty or starts with a parenthesis |
| IniExpand.ReplaceVar | source/ini.c:609-655 | the two loops expand every value in table order, each by the table as it then stands, with the result that `IniExpand.TableReplaced` states; any failure ends in one error |
| IniExpand.TableReplaced | source/ini.c:609-655 | the result is the one table, of the same shape, in which each value of a listed key is the text to which the table, its earlier values already replaced, expands the original value; without such a table the replacement fails |
| IniExpand.TableUnchanged | source/ini.c:563-607 | a table without references comes back as it was |
| IniExpand.TableOneReference | source/ini.c:502-655 | one reference in the whole table becomes the value of its key, nothing else changes, and it fails exactly when there is no room |
| IniExpand.TableSettles | source/ini.c:609-655 | a clean table stays clean and ends with every value completely expanded (to which text: `IniExpand.TableReplaced`, `IniExpand.ExpandRewrites`) |
| LogProtocols.RunKeepsInv | source/log.c:129-293 | every interleaving of any number of threads keeps the four invariants |
| LogProtocols.MutualExclusion | source/log.c:262-293 | at most one thread is in the rotation section, even when ids coincide, and at most one writes the configuration |
| LogProtocols.OneFilePerDay | source/log.c:281-290 | threads carrying one day open at most one log file successfully between them; that it is opened is stated by the next two |
| LogProtocols.LeavesWithItsDay | source/log.c:281-293 | in every run without a failed opening, a thread about to leave the rotation section sees the file of its own day open, whoever opened it |
| LogProtocols.AloneRotates | source/log.c:260-293 | from every reachable state with log_init finished and the section free, a call left alone opens the file of its day if and only if that is not the last day, under its thread id or, once log_init has stored one, the process id, and leaves the section free; a failed opening changes nothing |
| LogProtocols.AloneGivesUp | source/log.c:260-279 | before log_init has finished nothing is opened; a call that finds the section taken gives up at once if it is held under its own id, and otherwise after 1000000 attempts |
| LogProtocols.AloneInitialises | source/log.c:129-166 | from every reachable state before log_init, a call left alone installs its configuration and the process id, or, when the directory cannot be made, leaves the next call to begin again |
| LogProtocols.NeighboursDiffer | source/log.c:281-290 | in every run two files opened one after the other are for different days |
| LogProtocols.ConfigIsWhole | source/log.c:131-146 | once initialisation is over the configuration is one that was handed in, not a mixture |
| LogProtocols.ConfigIsFrozen | source/log.c:131-151 | after that it is never written again |
| LogProtocols.WaiterLeavesIff | source/log.c:131-151 | from every reachable state a waiting thread goes on in some run without a new call if and only if log_init has finished or a thread is at its start, copying, making the directory or publishing; a thread whose mkdir has failed does not help |
| LogProtocols.NewCallReleases | source/log.c:131-151 | from every reachable state one new call of an idle thread is enough |
| LogProtocols.HopelessIsReachable | source/log.c:131-151 | two threads reach a state in which the waiting one stays for ever unless log_init is called anew |

## Left out

- Failing file operations: opens, mappings, writes and the storage check succeed; on their error returns inside a rotation the C code has already released the old mapping.
- A stop between the single steps of `get_next_read_file` or of `get_next_write_file`: the code does not make these atomic. Stops are modelled between requests, before and inside the journal line of a request, and inside the line of a rotation.
- Stops.StopsLoseNothing: a stop inside a line with fewer than two lines since the last tear is left to `Journal.SecondTear`, and a stop before the first byte of a put's line to `Orphan.OrphanIff`; a stop inside the line that `get_next_read_file` writes leaves two journals and is not modelled.
- Several journals in one directory: `FindHandleFile` says which are removed; the code looks for their sizes and removes them by bare name, outside the queue's directory, and what that does to other files is not modelled.
- Crash.SecondTearWithholds: with messages already read, the position restored after a second tear (`Recovery.SecondTearRestart`) may lie inside a frame; what the reader finds from there is not stated.
- `MSG_CHECK_RET_MSG_ERR` (no mapping) and `MSG_CHECK_RET_PARSE_ERR` (never produced) have no counterpart in the parser.
- Upward overflow of the uint64 message counters and of segment numbers, and of the unsigned bucket numbers of a hash table.
- Decimal.Atoi: without leading blanks, signs and overflow; the digits of a segment head and of a generated name have none.
- Recount.HeadBelieved: for numbers below 2^31, since `atoi` is undefined beyond.
- HashTable.HashTable.Add: only for keys that are not in the table, as every caller sees to.
- Alternative hash functions, the bloom filter, `HASH_SELECT` and self-checks of uthash; the C table holds a pointer to itself in every element.
- Messages that are lost when the logger finds its own id in the rotation section: the step returns without writing, and what is written is not modelled.
- In LogProtocols `memcpy` of the configuration goes word by word; all other steps are single atomic accesses in one order seen by all threads.
- HTTP handling, replies, status pages, synchronisation intervals, process set-up, ini file parsing before expansion, log text and the swap of the log descriptor.
