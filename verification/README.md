# iwtftpd in Dafny

A model of the TFTP server iwtftpd (RFC 1350): its two session lists, its datastore, the data path
between a file and 512-byte blocks, the packet formats, the stop-and-wait protocol with its timer and
clean-up, and whole transfers over channels that lose and duplicate packets.

`dafny verify dfyconfig.toml` checks everything.

The code that works in place is modelled in place. `Iwds`, `IwTftp`, `Session`, `DataStorage` and
`SendInfo` are classes with the fields of the C structures; the loops are loops over arrays and links,
and the label structure of `tftp_proc` is a tree of methods. Every one of those methods is proved against
functions and relations on values (`DatastoreSpec`, `SessionSpec`): a datastore is a map of files and a
map of open sessions with their offsets, a session is a record, and `Handled` says what one datagram may
do to them. The main theorems are about runs of those values, and `Service` shows that every step of
the imperative server is a step of such a run.

| file | contents |
|---|---|
| `Base`, `AssocList` | bytes, block numbers, buffers; association lists and maps |
| `Netascii`, `Blocks`, `Packets` | the two translations, the 512-byte blocks, the packet formats |
| `DatastoreSpec`, `Datastore`, `DatastoreRuns` | src/datastore.c: on values, on linked nodes, over interleaved requests |
| `SessionSpec`, `PutSpec` | what each action of a session means, on values |
| `Sessions`, `Transfer`, `Messages` | the session record, the data path and the message builders of src/tftp.c |
| `SessionTable`, `Server`, `Service` | the session list, `tftp_proc`, the timer, and the loop body of the service |
| `ServerRuns`, `LeftBehind` | runs of the whole server with any number of clients; the datastore sessions that outlive their transfers |
| `Replies`, `Timing` | what is sent in reply, and again; when the timer and the clean-up act |
| `Channels`, `GetProtocol`, `PutProtocol` | one download and one upload, end to end |
| `GetConditions`, `RoundTrips` | when a download needs no condition on its run; a download and an upload together |
| `DownloadCompletes`, `UploadCompletes` | transfers over channels that lose nothing come to their end |
| `Counterexamples`, `LongDownload`, `LongUpload` | runs, from an idle server, of what does not hold |

## What the runs show

- A download over channels that lose and duplicate packets, beside any other clients: the client's bytes are always a
  prefix of the encoded file, and all of it once it has seen a short block. With one client, from a server with
  nothing left behind, that holds without any condition on the run, through any number of wraps of the block number
  (`GetConditions.GetSafeAlone`). With others it holds without any condition on the message buffer for
  files of fewer than 65536 blocks (`GetProtocol.GetSafeShort`), and for longer ones under the named condition `NoForeignReplies`.
- An upload under the same conditions: a client that has seen its last block acknowledged finds the
  decoded upload in the file; before that, and after any error, the file holds a prefix of it; and its blocks never
  meet the check for an invalid block number. For the contents of the file, the server must be allowed to create it when a
  block asks for a flush while there is none; the disk may be full. The block numbers need no condition at all.
- In both, at every moment until the session is disabled: block number, last message, file and buffer all belong to the
  same number of blocks. For a download that holds for finished sessions too, and a failed load is the only exception; for a
  finished upload, see `PutProtocol.PutFinished`.
- Over channels that lose nothing, a download of any readable file is complete after as many rounds as it has blocks
  (`DownloadCompletes.Completes`), and an upload one round later, or its last block is refused, as its own bytes say
  (`UploadCompletes.Completes`).
- Every datagram is answered, unless it leaves the session disabled or is an ERROR without a session; what a client without a
  session is answered is stated byte by byte (`Replies.StrangerReply`).
- No file is overwritten, each file has one writer, sessions do not disturb one another, and there are at most three
  retransmissions for each message built and each transfer that fails to start. The timer leaves ten seconds between them
  (`Timing.TimerApart`).

## What does not hold

Each of these is a lemma about the code as it is; the theorems above name the condition that it calls for.

- The server compares an ACK with `blknum - 1` as an integer, so the ACK of 65535 is not recognised when
  the block number is 0 (`ServerRuns.PreviousAckIff`). Such an ACK is answered with whatever the message buffer holds. With
  one client that is harmless (`GetConditions.GetSafeAlone`); with several it can be a DATA block of another
  transfer, and the client accepts it (`GetConditions.ForeignReplyAccepted`). `LongDownload.LongFileMisled` is a whole run
  of two conforming clients, from an idle server, in which a download of any octet file of 65536 blocks or more is given a block of the
  other file.
- A session can end with its datastore session open. That happens in exactly two ways (`LeftBehind.EndsLooseIff`): a
  datagram takes it to the label `errsend`, which closes nothing; or the session has been disabled in the middle of its
  transfer and takes one message more before the clean-up, because `tftp_proc` does not look at `disabled`, and that message
  opens the file: a download has to load a whole block and can, an upload fills its buffer before its last block and can
  create the file. `del_session` then drops the session
  and not the datastore session (`LeftBehind.CleanupLeavesIff`). When the same descriptor is given out again for the same
  file, the new download starts where the old one stopped (`GetConditions.LeftBehindIff`). Two whole runs that end with an
  empty file delivered are `Counterexamples.LeftBehindByError` and `Counterexamples.LeftBehindByLateAck`. If no datagram of that
  kind is taken, nothing is ever left behind (`LeftBehind.NothingBreaks`); and a conforming client never meets what
  it has left behind itself (`GetConditions.NothingToMeet`).
- Every segment of the last netascii block is flushed, and an empty flush closes the file, so a later flush is
  refused. `PutProtocol.LastBlockAnswered` says from the bytes and the mode of an upload alone whether its last block is
  refused; an upload of CR LF alone is one (`PutSpec.EmptyLineRefused`).
- A block that is refused because the file cannot be created stays in the session buffer, as far as it had been copied. If it
  comes again when the file can be created, that part is stored twice (`PutProtocol.RefusedBlockStoredTwice`), unless the block
  is empty, or the last one in netascii and starts with a CR; if the refusal has left a file, the block is refused again
  (`PutProtocol.RefusedAgainIff`). `Counterexamples.StoredTwice`, with a last block, and `LongUpload.BufferStoredTwice`, with
  the block that fills the buffer, are whole runs in which a conforming client sees its upload acknowledged to the end.
- A load that fails advances the block number and records no message. A client that repeats its request then is sent an empty packet, three
  times: three retransmissions although no message has been built (`Counterexamples.RetransmitsNothing`).
- A datagram of which the server makes nothing, an ACK of a wrong number or an unknown opcode, is answered with what the
  message buffer holds. That can be the last message once more, without a retry being used and any number of times
  (`Counterexamples.RepeatsWithoutEnd`); `Replies.BoundedRepeats` counts these datagrams, and there is no other reason.
- The translation is the server's own and not that of RFC 1350: every CR of an upload is deleted, and a
  lone CR of a download is not escaped. A file survives the trip there and back exactly in octet mode or
  when it holds no CR, and one fetched as netascii and sent back as octet exactly when it holds no LF (`RoundTrips.RoundTrip`).

## Model

| member | source | states |
|---|---|---|
| Netascii.RoundTripIff | src/tftp.c:1574-1655 | out in one mode and back in another gives the file back if and only if no LF goes out as text and comes back as bytes and no CR comes back as text; back in netascii it gives the file without its CRs |
| Netascii.DecodeIdentityIff | src/tftp.c:1574-1602 | the decoding holds no CR, is no longer than the input, and equals it exactly when the input holds none |
| Netascii.DecodeEncode | src/tftp.c:1574-1655 | what the LF to CR LF translation adds, the deletion of CRs takes away again |
| Netascii.EncodeConcat | src/tftp.c:1606-1655 | encoding is the same however the file is cut into pieces |
| Netascii.EncodeNewlines | src/tftp.c:1606-1655 | every LF of the encoding stands behind a CR, and the encoding is longer than the file by the number of its LFs |
| Netascii.DecodeConcat | src/tftp.c:1574-1602 | decoding is the same however the upload is cut into pieces |
| Netascii.TranslatesConcat | src/tftp.c:1606-1655 | two calls of the resumable translator, with the CR carried in `fopt` between them, do what one call on both inputs does |
| Netascii.SuccessiveCalls | src/tftp.c:1606-1655 | what any number of successive calls write is the encoding of what they consume, perhaps with the CR of the next LF; every LF in it stands behind a CR |
| Sessions.DataStorage.LocalToNetascii | src/tftp.c:1606-1655 | the output plus the carried CR is the encoding of exactly the bytes consumed; every LF written stands behind a CR, or is the first byte and the CR was carried; a CR stays pending only in front of its LF and only when the destination is full; nothing is written without input and room |
| Sessions.DataStorage.NetasciiToLocal | src/tftp.c:1574-1602 | the buffer grows by the decoding of exactly the bytes consumed, up to the next CR, the end or a full buffer |
| Blocks.BlockFacts | src/tftp.c:1363-1370 | blocks follow one another without gap or overlap, exactly the last is short, and after it the whole string has been sent |
| Packets.ParseTftpreq | src/tftp.c:1173-1229 | the parser with its bounded scans computes the specified request, or fails |
| Packets.ParseReqIff | src/tftp.c:1173-1229 | the parser accepts a receive buffer exactly when it begins with an encoded request with a NUL-free name of fewer than 256 bytes, and recovers the name and the mode, whatever stale bytes follow |
| Packets.ParseDataIff | src/tftp.c:1233-1262 | the parser recovers number and payload exactly from the datagrams that are DATA messages of at most 512 bytes |
| Packets.ParseAckIff | src/tftp.c:1266-1289 | the parser recovers the number exactly from the datagrams that are ACK messages |
| Packets.ParseTftperror | src/tftp.c:1293-1330 | the parser with its bounded scan computes the specified error message, or fails |
| Packets.ParseErrIff | src/tftp.c:1293-1330 | the parser accepts exactly the buffers that begin with an encoded ERROR with a NUL-free text of fewer than 256 bytes, and recovers code and text |
| Packets.MakeTftperrMsg | src/tftp.c:1423-1454 | the buffer holds the encoded ERROR with the text of its code, or the given text for code 0; it fails exactly when that does not fit |
| Packets.AckFormat | src/tftp.c:1387-1419 | an ACK is 0, 4 and the number, high byte first |
| Packets.DataFormat | src/tftp.c:1336-1383 | a DATA message is 0, 3, the number, high byte first, and the payload |
| Packets.ErrFormat | src/tftp.c:1423-1454 | an ERROR is 0, 5, the code, high byte first, the text and a NUL |
| Packets.ReqFormat | src/tftp.c:1173-1229 | a request is 0, 1 or 2, the name, a NUL, the mode's name in ASCII and a NUL |
| DatastoreSpec.PathIs | src/util.c:40-75 | the path of a file is its name without exactly the slashes in front |
| DatastoreSpec.SameFileIff | src/util.c:40-75 | two names are of one file if and only if they agree behind their leading slashes |
| DatastoreSpec.ReadFacts | src/datastore.c:145-209 | a read keeps every file, every other session and the facts about open sessions; it succeeds, and leaves the session open, if and only if the file exists, can be read, and is open for reading or can be opened |
| DatastoreSpec.ReadDelivers | src/datastore.c:145-209 | a read delivers the bytes at the session's offset, as many as asked for or all that are left, and moves the offset behind them |
| DatastoreSpec.WriteFacts | src/datastore.c:213-283 | a write appends to the session's own file what it reports as written; a file that exists without that session is never changed |
| DatastoreSpec.WriteCloses | src/datastore.c:213-283 | after a write the session is open if and only if bytes were given and all of them written: an empty request and a short write close it |
| DatastoreSpec.ChangeKeepsInv | src/datastore.c:609-675 | offsets stay inside the files, writers stay at the end, and no file gets two writers |
| Datastore.Iwds.GetDsession | src/datastore.c:532-549 | the search loop finds the node of a key, or none exactly when the map of open sessions has none |
| Datastore.Iwds.AddDsession | src/datastore.c:609-629 | a new node stands in front of a well-formed list, the rest in its old order |
| Datastore.Iwds.CreateDsession | src/datastore.c:553-605 | the file is opened, truncated if for writing, and the key added; nothing changes if fopen fails |
| Datastore.Iwds.Unlink | src/datastore.c:633-675 | exactly one node leaves the list, links stay mirrored, and the node keeps its own links |
| Datastore.Iwds.DelDsession | src/datastore.c:633-675 | the map of open sessions loses exactly that key |
| Datastore.Iwds.Read | src/datastore.c:145-209 | the linked implementation is the read on values: result, bytes delivered, files, offsets |
| Datastore.Iwds.Write | src/datastore.c:213-283 | the linked implementation is the write on values, with the close on an empty request and after a short write |
| Datastore.Iwds.Close | src/datastore.c:287-322 | exactly that session is closed, if it is open |
| DatastoreRuns.ConsecutiveSlices | src/datastore.c:145-283 | for any interleaving of requests and failures, the bytes one session has read or written since it was opened are its file up to its offset, with no gap, overlap or repeat; a writer has written all of its file |
| DatastoreRuns.KeepsInv | src/datastore.c:145-322 | the invariant of the datastore holds after any sequence of requests |
| Transfer.LoadData | src/tftp.c:1661-1692 | the buffer is refilled from the session's offset; a failure closes the datastore session |
| Transfer.GetSessionData | src/tftp.c:1458-1511 | the next bytes of the encoded rest of the file, as many as asked for or all that is left, wherever the 8192-byte refills and the newlines fall; bytes that the buffer holds need no load and leave the datastore alone, and otherwise the call fails if and only if the file cannot be read; the loop ends |
| Transfer.SaveData | src/tftp.c:1696-1729 | the buffer is written in one request; a short write is a failure and closes the datastore session |
| Transfer.PutSessionData | src/tftp.c:1515-1570 | it succeeds if and only if the flushes that the payload asks for are allowed and have room, and none follows an empty one; then stored bytes followed by the buffer grow by exactly the decoded payload, and a last payload leaves the buffer empty and the file complete; a failure leaves a prefix; the loop ends |
| Transfer.PutRound | src/tftp.c:1528-1564 | at every loop head, stored bytes followed by the buffer are the decoding of what has been consumed; a round consumes input, empties the buffer, or ends |
| PutSpec.Flushed | src/tftp.c:1557-1563 | a flush moves the buffer into the file and loses nothing |
| PutSpec.NotFlushed | src/tftp.c:1557-1563 | a failed flush leaves in the file a prefix of what has been received, and the session closed |
| PutSpec.FlushesOkIff | src/tftp.c:1528-1564 | a last netascii payload asks for no empty flush before its end exactly when no CR, except the last byte, stands after a CR or where the bytes received so far fill whole buffers |
| PutSpec.EmptyLineRefused | src/tftp.c:1557-1563 | CR LF on an empty buffer is refused; on a filled buffer, or in octet mode, it is not |
| Messages.MakeTftpdataMsg | src/tftp.c:1336-1383 | the message is DATA with the next block number and the next 512 bytes of the stream, recorded as the last message; a short one sets `fin` and closes the file; on failure the number has advanced and the last message has not |
| Messages.MakeTftpackMsg | src/tftp.c:1387-1419 | the message is the ACK of the block, recorded as the last message with the retry counter reset |
| SessionTable.IwTftp.GetSession | src/tftp.c:1069-1083 | the search loop is lookup in the map from clients to sessions |
| SessionTable.IwTftp.Insert | src/tftp.c:1055-1059 | a node in front of a well-formed list adds one client to the map; no buffer is shared |
| SessionTable.IwTftp.AddNewSession | src/tftp.c:981-1065 | a fresh session with the client, the file, the mode and the descriptor, block number 0, in front of the list |
| SessionTable.IwTftp.Unlink | src/tftp.c:1099-1111 | by cases on the two neighbours, exactly one node leaves, links stay mirrored, and the node keeps its own links |
| SessionTable.IwTftp.DelSession | src/tftp.c:1087-1117 | the map loses exactly that client, the rest keeps its order |
| SessionTable.IwTftp.DelAllSession | src/tftp.c:1121-1140 | the walk ends and the list is empty |
| SessionTable.IwTftp.CleanupSession | src/tftp.c:1144-1167 | although it deletes the node it stands on, the walk ends and keeps exactly the sessions that have not expired, in order |
| SessionTable.KeepMap | src/tftp.c:1144-1167 | on the map, that removes exactly the sessions that are disabled, or finished and idle for more than 15 seconds |
| SessionTable.KeepConcat | src/tftp.c:1144-1167 | cleaning up a list in two parts is cleaning it up at once |
| Server.Resend | src/tftp.c:885-901 | the last message again and one retry more, or, at the limit, the session disabled and its file closed |
| Server.Answer | src/tftp.c:841-850 | the next block, or an ERROR and a finished session |
| Server.AcceptData | src/tftp.c:786-813 | an expected block is stored and acknowledged, the last one stored and the file closed, or refused with an ERROR and the session finished |
| Server.ProcData | src/tftp.c:771-820 | a DATA message for a session: repeated, accepted or rejected by its number |
| Server.ProcAck | src/tftp.c:822-856 | an ACK for a session: repeated, answered, finishing or without a reply of its own, by its number |
| Server.ProcError | src/tftp.c:858-874 | an ERROR disables the session and closes its file |
| Server.ProcKnown | src/tftp.c:705-901 | a datagram for a client with a session does to the session, the datastore and the reply what the relation says |
| Server.ProcRequest | src/tftp.c:707-769 | a request without a session: refused with the right error, or a new session with its first message |
| Server.TftpProc | src/tftp.c:678-920 | over the linked tables, one datagram changes only its client's session, its key in the datastore and the message buffer, as the relation says |
| Server.Receive | src/tftp.c:385-402 | the reply is what is in the message buffer, from the descriptor of the client's session or, without one, from the socket of the service; there is none if and only if the session is disabled afterwards, or the datagram is an ERROR without a session |
| Server.ResendAllSession | src/tftp.c:924-975 | every idle session is sent again or disabled and closed, each according to its own counters; what is sent, in order |
| Service.HandleDatagram | src/tftp.c:360-411 | a datagram handled over the linked tables is a step of the runs, keeps their invariant, and is answered unless its session is disabled afterwards or it is an ERROR without a session |
| Service.RunTimer | src/tftp.c:420-421 | so is the timer; it sends the last message of exactly the sessions that are neither finished nor disabled, have been silent for more than ten seconds and have been sent again fewer than three times |
| Service.RunCleanup | src/tftp.c:423-424 | so is the clean-up |
| Service.TimedIsStep | src/tftp.c:924-975 | the walk of the timer over the list is a simultaneous step on the map |
| Replies.ReplyIff | src/tftp.c:385-402 | a datagram goes without a reply if and only if its session is disabled afterwards, or it is an ERROR without a session |
| Replies.StrangerReply | src/tftp.c:707-769 | without a session, byte by byte: ERROR 5 to DATA and ACK, ERROR 4 to a malformed request, 1 to an RRQ for a missing file, 6 to a WRQ for an existing one, ACK 0 to any other WRQ; a session starts for exactly the good requests |
| Replies.KnownRefusal | src/tftp.c:771-830 | a malformed message or a wrong DATA number is answered with ERROR 4 and finishes the session |
| Replies.LastAckEnds | src/tftp.c:838-842 | the ACK of the last block disables the session, changes nothing else, and is not answered |
| Replies.BoundedRepeats | src/tftp.c:705-975 | over any run, the messages sent to a client although they are the last message of its session, for whatever reason, are at most three for each message built and each failed start, and one for each of its datagrams of which the server makes nothing |
| Replies.RetryCounts | src/tftp.c:885-975 | over any run, the retry counter of a session is the number of times its last message has been sent again |
| Counterexamples.RepeatsWithoutEnd | src/tftp.c:852-856 | for every n, a run in which a client is sent the same block again n times, with one message built and no retry used |
| Timing.TimerIff | src/tftp.c:936-956 | the timer sends a session's message again if and only if it is more than 10 seconds old, the session is neither finished nor disabled, and fewer than 3 retries are used; with 3 used it disables the session and closes its file; nothing else changes |
| Timing.TimedAt | src/tftp.c:924-975 | the walk does that to each session of the list, and keeps the list in order |
| Timing.TimedSentIff | src/tftp.c:924-975 | the walk sends exactly the last messages of those sessions |
| Timing.TimedDsIff | src/tftp.c:944-948 | the walk closes exactly the files of the sessions that it gives up |
| Timing.ExpiredIff | src/tftp.c:1151-1163 | a session is deleted if and only if it is disabled, or finished and silent for more than 15 seconds |
| Timing.CleanupRemovesIff | src/tftp.c:1144-1167 | one clean-up removes exactly those sessions and leaves the others and the datastore as they were |
| Timing.TimerApart | src/tftp.c:936-956 | over any run, after a message of a session has gone out, new or again, the timer sends nothing to its client for ten seconds unless something else is sent in between |
| ServerRuns.RunKeepsInv | src/tftp.c:678-1167 | in every state of every run: descriptors distinct, at most three retries, a buffer of an unfinished upload strictly below 8192 bytes (only a refused flush, which finishes the session, may leave it full), an upload's open datastore session is a writer, the datastore sound |
| ServerRuns.Isolation | src/tftp.c:678-920 | a datagram of one client leaves every other session, its offset and the file it writes as they were |
| ServerRuns.NoOverwrite | src/datastore.c:213-283 | between any two states of a run, files only grow at their end, a file without a writer never changes, and nobody joins or replaces the writer of a file |
| ServerRuns.OneWriter | src/datastore.c:235-252 | in any run a file is only ever written through one datastore session, however many clients were allowed to create it |
| ServerRuns.QuietStays | src/tftp.c:903-915 | over every run, a file that no other transfer can write stays as it is, also when a datastore session has been left behind and its descriptor is used again |
| ServerRuns.DisabledStays | src/tftp.c:396-398 | over every run, a disabled session stays disabled until it is deleted, and no step sends anything to it, neither a reply nor by the timer |
| ServerRuns.DuplicateIdempotent | src/tftp.c:885-901 | one repeated datagram: the last message again and a retry used up, or, at the limit, the session disabled, its file closed and nothing sent |
| ServerRuns.RepeatsIdempotent | src/tftp.c:885-901 | any number of repeats in a run, with other clients and the timer in between: no block number, buffer, file or offset moves; at most the session is disabled and its file closed |
| ServerRuns.BoundedRetransmission | src/tftp.c:885-975 | over any run, the retransmissions to a client by the label resend and the timer are at most three times the messages built for it and its transfers that failed to start |
| Counterexamples.RetransmitsNothing | src/tftp.c:841-901 | a run with three retransmissions and no message built: the first load failed |
| ServerRuns.StepRetries | src/tftp.c:885-975 | a step that sends again uses up a retry, and only a message built, or a transfer that fails to start, gives retries back |
| ServerRuns.PreviousAckIff | src/tftp.c:834 | the ACK of the previous block is recognised if and only if the current block number is not 0 |
| LeftBehind.EndsLooseIff | src/tftp.c:678-920 | a session ends with its datastore session open if and only if it meets `errsend` with the file open, or has been disabled unfinished and takes a message that makes it open the file: a download whose buffer holds less than the whole block that is due, from a readable file; an upload whose buffer is filled by a block that is not the last, into a file that can be created and written |
| LeftBehind.CleanupLeavesIff | src/tftp.c:1087-1167 | a clean-up leaves behind, besides what had been, exactly the datastore sessions that the ended sessions it deletes have open |
| LeftBehind.NothingBreaks | src/tftp.c:678-1167 | over every run without such a datagram, every open datastore session belongs to a transfer that is going on |
| Counterexamples.LeftBehindByError | src/tftp.c:903-915 | a run: RRQ, an ACK of five bytes, the clean-up, and an RRQ on the same descriptor, which is answered with an empty file |
| Counterexamples.LeftBehindByLateAck | src/tftp.c:885-901 | a run: RRQ, four repeats of it, the ACK of block 1 to the disabled session, the clean-up, and an RRQ on the same descriptor, which is answered with an empty file |
| GetProtocol.GetDataPath | src/tftp.c:1336-1383 | the messages built for one download are the encoded file cut into 512-byte blocks, |e|/512 + 1 of them, `fin` with the last |
| GetProtocol.BuildBlock | src/tftp.c:1336-1383 | an answer after k blocks is DATA block k+1 with the rest left to send if the buffer holds a block or the file can be read, and an ERROR otherwise |
| GetProtocol.StepKeeps | src/tftp.c:822-901 | every step of client, channels, server, timer and other clients keeps: server and client counts differ by at most one and the channels hold only the two adjacent messages, in order |
| GetProtocol.GetCoherent | src/tftp.c:1336-1383 | over every run and up to the last block, also when the session is finished: block number, last message and the rest to be sent belong to the same block of the encoded file, and the client is at most one behind; a failed load is the only exception, and there is none if the file can be opened and read |
| GetProtocol.GetSafe | src/tftp.c:822-901 | over every run in which nothing was left behind under a new session's key and no stale ACK is answered with a foreign block: the accepted bytes are the first blocks of the encoded file, and all of it once a short block has been seen |
| GetProtocol.GetSafeShort | src/tftp.c:822-901 | for fewer than 65536 blocks, the same whatever the message buffer holds and other clients do |
| GetConditions.NothingToMeet | src/tftp.c:678-1167 | a conforming client, beside clients that do not end their transfers with the file open, never meets a datastore session left behind |
| GetConditions.GetSafeAlone | src/tftp.c:822-901 | with a single client, from a server with nothing left behind, a download of any length is safe with no condition on the run |
| GetConditions.GetSafeBeside | src/tftp.c:822-901 | so is one of fewer than 65536 blocks beside other clients that do not end their transfers with the file open |
| GetConditions.ForeignReplyAccepted | src/tftp.c:852-856 | the ACK of 65535 at block number 0 is answered with what the message buffer holds, and the client accepts it |
| LongDownload.LongFileMisled | src/tftp.c:834-856 | for any two octet files of 65536 blocks or more, a run of two conforming clients from an idle server, all other conditions met, in which one download is given block 65536 of the other file |
| GetConditions.LeftBehindIff | src/tftp.c:903-915 | under a key left open, a download has the whole file to send if and only if nothing had been read under that key |
| DownloadCompletes.Completes | src/tftp.c:822-850 | over channels that lose nothing, for any mode and readable file: after n rounds the client has n blocks, and after |e|/512 + 1 rounds, and not before, the whole encoded file |
| DownloadCompletes.Ends | src/tftp.c:838-842 | with the ACK of the last block taken, the session is disabled and the channels are empty |
| PutProtocol.BlockAcked | src/tftp.c:786-813 | an acknowledged block is stored or buffered; the last one completes the file |
| PutProtocol.BlockRefused | src/tftp.c:795-799 | a refused block leaves a prefix in the file and a session that can acknowledge nothing more |
| PutProtocol.StepKeeps | src/tftp.c:771-901 | every step of client, channels, server, timer and other clients keeps: server and client counts differ by at most one; and, when the file may be created, it is a prefix of the upload unless someone else created it |
| PutProtocol.PutCoherent | src/tftp.c:783-813 | over every run, without any condition, also when the session is finished: block number and last message belong to the number of accepted blocks; unfinished, stored bytes followed by the buffer are their decoding |
| PutProtocol.PutFinished | src/tftp.c:786-813 | a finished session has closed its file, which is complete; or has refused the next block |
| PutProtocol.PutSafe | src/tftp.c:771-820 | over every run in which the file may be created whenever a block asks for a flush while there is none, when the last block has been acknowledged the file is the decoded upload |
| PutProtocol.PutPrefix | src/tftp.c:771-820 | over every run, also after errors, the file is a prefix of the decoded upload unless someone else created it |
| PutProtocol.NeverInvalid | src/tftp.c:814-818 | over every run, without any condition, no packet of the client meets the check for an invalid block number |
| RoundTrips.RoundTrip | src/tftp.c:1458-1655 | the bytes that a finished download run delivered, uploaded in a second run, reproduce the file if and only if no LF went out as text and came back as bytes and no CR came back as text: in one mode, if it is octet or the file has no CR |
| PutProtocol.LastBlockIff | src/tftp.c:786-813 | the last block is acknowledged if and only if the session has its file open or may create it, there is room, and the mode is octet or the block asks for no empty flush |
| PutProtocol.FullBlockIff | src/tftp.c:786-813 | any other block is acknowledged if and only if it does not fill the buffer, or the session has its file open or may create it and there is room for the buffer |
| PutProtocol.LastBlockAnswered | src/tftp.c:786-813 | over every run, with nothing else in the way, the last block is answered with its ACK or with an ERROR as the mode and the bytes of the upload alone decide |
| PutProtocol.RefusedBlockStoredTwice | src/tftp.c:795-799 | an octet block refused for want of a file and sent again is partly stored twice |
| PutProtocol.RefusedAgainIff | src/tftp.c:786-813 | a refused block sent again is refused again if the refusal left a file; else it is acknowledged as its flushes allow, and the file is right if and only if the block is empty, or the last one in netascii and starts with a CR |
| Counterexamples.StoredTwice | src/tftp.c:786-813 | a run of a conforming client that sees its last block acknowledged while the file holds it twice |
| LongUpload.BufferStoredTwice | src/tftp.c:1515-1570 | for any octet upload of 8192 bytes, a run that acknowledges it to its end and stores its last 512 bytes twice |
| PutProtocol.EmptyUpload | src/tftp.c:771-814 | an upload of no bytes is acknowledged and leaves no file |
| UploadCompletes.Completes | src/tftp.c:771-820 | over channels that lose nothing, to a file that can be created and has room: each round acknowledges one message, and the last block is acknowledged with the file complete, or refused, exactly as the upload's own bytes say |

## Left out

- Sockets, epoll, name lookup, logging, options, credentials and chroot: of the event loop only the order of receive, `tftp_proc`, send, timer and clean-up is kept.
- Failures of malloc, of creating a client socket and of getsockname: a new session always gets a descriptor that no live session holds, and the timer always gets to its send. The send itself may be lost.
- File system: `stat` and path resolution beyond the slashes in front of a name; stdio buffering, so written bytes are visible at once. Which files can be opened and read, and how long each may grow, is arbitrary at every datagram but fixed during one.
- Time is a natural number read once in each call, so the 32-bit truncation of time differences is not modelled.
- Liveness over channels that lose, reordering channels, the "mail" mode, case-insensitive mode names and the rest of netascii: the code does not provide them.
- Datastore.Iwds.Read: a failed fread delivers nothing, where the code's may have filled a part of the buffer and returns that length.
- Transfer.LoadData: likewise leaves the session buffer empty after a failed read; the code keeps the length read, in a session that is then finished and whose buffer is not used again.
- SessionTable.IwTftp.CleanupSession: nodes are never freed. The code frees the session it deletes and then reads its `next` (src/tftp.c:1151); the model's deleted node keeps its links, which is what the code relies on.
- SessionTable.IwTftp.AddNewSession: always succeeds, and fills the node before it links it, where the code links first; nothing sees the list in between.
- Server.ProcData: a download session is sent no DATA. The code has no direction field and would take the block into a buffer that it is reading from; the model adds the direction for the specification only.
- Server.ProcAck: an upload session is sent no ACK. The code would read from a buffer that it is filling, past what it holds.
- Server.ProcKnown: datagrams against the direction of the transfer are excluded, as for ProcData and ProcAck.
- Server.TftpProc: so they are here.
- Server.Receive: so they are here.
- Service.HandleDatagram: so they are here, and hence in all runs.
- Server.ProcRequest: `add_newsession` always succeeds; when the client socket cannot be created, the code answers with an ERROR but leaves a session with descriptor -1 in the table.
- Server.ResendAllSession: does not say to which address the packet goes, which in the code is the one that getsockname gives (src/tftp.c:948-963), and leaves out the skip when getsockname fails; the transfers treat the packet as possibly lost.
- Server.SendInfo: starts with an empty message, where `sinfo` starts uninitialised in the code (src/tftp.c:307); only a datagram of unknown type before any reply could tell.
- GetProtocol.GetSafe: is stated for runs in which no ACK is answered from a message buffer that holds a DATA block of another transfer, and in which a new session does not meet a datastore session left behind under its key; both conditions can fail, see above.
- GetConditions.ForeignReplyAccepted: starts in the state that it is about; LongDownload.LongFileMisled reaches such a state.
- PutProtocol.PutSafe: is stated for runs in which the server may create the file whenever a block asks for a flush while there is none (Counterexamples.StoredTwice and LongUpload.BufferStoredTwice are runs that fail otherwise); an upload that decodes to nothing need not leave a file.
