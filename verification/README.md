# Verified models of the adb core

A Dafny project that models the parts of this repository where correctness depends on many steps
taken together, and proves what they are for. `dafny verify dfyconfig.toml` checks everything.

## What is modelled

* **Streams over one transport** (`Stream`, `Connection`, `Credit`, `Endpoint`, `Multiplex`,
  `Streams`, `Sockets`). Two endpoints, each with an id counter, a table of local sockets and a
  packet queue per socket, are joined by two FIFO channels carrying OPEN, OKAY, WRTE and CLSE. A run
  is any interleaving of new clients, fd events on any socket and packet deliveries at either end.
  `View` projects a world onto one connection; every act of an endpoint is shown to be exactly one
  step of exactly one connection, so that what is proved of a single connection holds for all of
  them at once. `Sockets` has the same endpoint as a class with the source's loops, each operation
  proved to do what `Endpoint` says.
* **The wire** (`Io`, `Wire`, `Link`): exact reads and writes over descriptors that give and take
  less than asked, packet headers and checksums, the CONNECT exchange, and the two combined: no
  packet a local socket builds is refused by the other side.
* **Transport threads** (`Transport`): reader, writer and main thread as interleaved steps, with
  SYNC tokens, kicks and the reference count.
* **The event loop** (`Fdevent`): the poll table, the pending list and callbacks that install,
  remove and re-arm fdevents while the loop runs.
* **File transfer** (`Sync`, `SyncService`, `SyncClient`), the **shell protocol** (`Shell`), the
  **smart socket** (`SmartSocket`), **console output** (`Utf8`), **listeners** (`Listeners`), the
  **banner** (`Banner`), the **event-log list builder** (`EventLog`) and the **handle table**
  (`Handles`).

System calls are parameters. A read or write may transfer any part of what was asked, would block, or
fails; which of these happens, and in what order threads and fds act, is left open, so the results
hold for every environment. Integers are unbounded except where a width matters: 32-bit words on the
wire, the checksum counter, socket ids, bytes and int arguments are bounded explicitly.

## What does not hold

These were expected of the code and fail. Each has a lemma with an input that shows it and a lemma
that says exactly when the code meets the expectation.

* *At most one unacknowledged WRTE.* The event loop turns a hang-up into a read, armed or not, so a
  second WRTE can follow the first (`Streams.HangUpBreaksCredit`). An event at either end keeps the
  count exact if and only if it does not forward data the socket was not armed for
  (`Streams.EventKeepsCreditIff`). The other half, that a stream never runs out of credit, holds
  without condition (`Streams.CreditPerDirection`).
* *A closing socket writes what is queued.* It does unless a write fails, or a hang-up is turned into
  a read that finds the end of the file while no write is due (`Streams.HangUpDropsQueue`,
  `Streams.ClosingSocketLosesIff`).
* *A transport whose threads have stopped is deleted.* If the reader cannot post a packet it leaves
  without SYNC(0), and the writer waits for ever (`Transport.FailedPostLeaks`). At rest, the
  transport is gone if and only if a SYNC(0) was posted or the writer's own read failed
  (`Transport.RestsDeleted`).
* *Requests may be sent one behind the other.* A smart socket drops what follows a transport request
  in the same packet (`SmartSocket.BytesBehindRequest`). Two requests are both decoded if and only if
  some packet ends where the first one does (`SmartSocket.SecondRequestIff`).
* *A push answered with OKAY has copied the file.* A large file is cut short if a poll fails between
  two pieces, and the server still says OKAY (`Sync.PollFailureTruncates`). The copy is complete if
  and only if it is a link, the file was small or no poll reported anything before the last piece
  (`Sync.PushCopiesIff`).
* *After stdin has died, protocol input is read on and dumped*, as a comment in `PassInput` says. It is
  if and only if stderr is still open, without which the loop ends, and no input was pending when the
  output side found stdin dead; otherwise the protocol is never waited on again
  (`Shell.PendingInputDeafens`, `Shell.DeadStdinReadsOnIff`).
* *The debug checks of the event-log builder hold.* They are strict where the space check is not, and
  fail if and only if a string fills the payload to its last byte (`EventLog.FullPayloadFailsCheck`,
  `EventLog.ChecksPassIff`, `EventLog.AllChecksPassIff`).
* *A banner restores the product, model and device whatever they are.* Names with a `=`, `;` or `:` in
  them are cut short or skipped (`Banner.DelimitersDropProduct`). Values the transport does not hold
  already are restored if and only if they are free of these (`Banner.BannerRestoresIff`).

* *A file that is not pushed because it is up to date is there.* The comparison masks the two modes with
  each other, so that a link or a socket on the device passes for a regular file
  (`SyncClient.LinkPassesForFile`). What is skipped is there in its own kind if and only if the device
  has no file, link or socket of another kind with its size and time (`SyncClient.SkippedForItsKindIff`).
* *A thread that leaves kicks the transport.* It does if and only if main has listed the transport by
  then (`Transport.KickedIff`).

Where code and comments differ the model follows the code: `Append(int)` asks for one byte more than
it needs, others get the group's permission bits as well as the user's, and the payload of an event
is limited to 511 bytes, not 512.

## Model

| member | source | states |
|---|---|---|
| `Streams.ByteStreams` | adb/sockets.cpp:125-383 | In every run, for every direction of every stream: bytes taken by the receiving fd, then bytes queued, then bytes in WRTEs in flight are the bytes read from the sending fd; what was delivered stays a prefix after sockets die; a socket closed by its peer has everything |
| `Streams.MirrorImages` | adb/adb.cpp:369-430 | In every run, whenever both channels are empty, the live sockets of the two sides are exact mirror images: connected, and each other's peer |
| `Streams.Settles` | adb/adb.cpp:369-445 | From every reachable state, however packets are delivered, it takes boundedly many deliveries, and none is left to make exactly when both channels are empty and the ends are mirror images |
| `Streams.CanSettle` | adb/adb.cpp:369-445 | From every reachable state there are deliveries that lead there |
| `Streams.OfflineClosesAll` | adb/sockets.cpp:109-123 | In every run, closing what is bound to the transport leaves no live socket at either end, and every connected one has told its peer |
| `Streams.RunTethered` | adb/adb.cpp:378-396 | In every run every opener is bound to the transport, and every connected socket through its peer |
| `Streams.DeliveriesEnd` | adb/adb.cpp:369-445 | However packets are delivered, with nothing else happening, only boundedly many deliveries are possible |
| `Streams.DeliverShrinks` | adb/adb.cpp:369-445 | Each delivery lowers a measure of the packets in flight and the sockets alive, even though it may send packets |
| `Streams.CreditPerDirection` | adb/sockets.cpp:159-183 | In every run each direction of a connected stream has at least one credit (sender armed, WRTE in flight, packet queued or OKAY in flight), and exactly one while no fd reports a hang-up or error |
| `Streams.EventKeepsCreditIff` | adb/sockets.cpp:250-373 | Any event at either end of a live stream keeps exactly one credit in both directions if and only if it does not forward data, and live on, without having been armed for reading |
| `Streams.HangUpBreaksCredit` | adb/fdevent.cpp:258-267 | A hang-up right after a read puts two WRTEs in flight |
| `Streams.QueuesAlwaysServed` | adb/sockets.cpp:164-176 | In every run a socket is armed for writing exactly when packets are queued, and then it has a peer or is closing, so the check on entering the closing list and the use of the peer after draining are safe |
| `Streams.ClosingSocketDrains` | adb/sockets.cpp:257-297 | However little each write takes, a closing socket without errors is destroyed only after every queued byte is written |
| `Streams.ClosingSocketLosesIff` | adb/sockets.cpp:250-373 | A closing socket loses queued bytes if and only if a write fails before the last of them, or no write is due and a read finds the end of the file |
| `Streams.HangUpDropsQueue` | adb/sockets.cpp:307-372 | A stream, from its opening, whose closing socket is destroyed by a hang-up with a byte still queued |
| `Streams.RunFits` | adb/sockets.cpp:310-357 | No packet in flight ever exceeds the payload limit |
| `Streams.RunInv` | adb/sockets.cpp:60-383 | The invariants of tables, mail and connections hold in every reachable world |
| `Streams.RunOneCredit` | adb/sockets.cpp:299-365 | Runs without unasked-for reads keep exactly one credit per direction of every connection |
| `Streams.HandleCost` | adb/adb.cpp:369-445 | Whatever the packet and the table, what handling a packet sends and opens weighs less than the packet |
| `Multiplex.NextYInv` | adb/adb.cpp:317-447 | Each act of an endpoint other than opening is exactly one step of exactly one connection, leaves every other connection as it was, and keeps the world's invariant |
| `Multiplex.DeliverMoves` | adb/adb.cpp:369-445 | A delivery moves the connection the packet belongs to, as one step of it, and no other |
| `Multiplex.FireMoves` | adb/sockets.cpp:250-383 | An fd event moves the connection of its socket, as one step of it, and no other |
| `Multiplex.ConnectMoves` | adb/sockets.cpp:85-96 | Opening a stream starts a new connection and touches no other |
| `Multiplex.DeliverOpeners` | adb/adb.cpp:369-383 | A delivery changes nothing at the sender and makes no socket an opener |
| `Multiplex.WNextInv` | adb/adb.cpp:317-447 | Acts of either endpoint keep the world's invariant |
| `Connection.NextInv` | adb/adb.cpp:369-445 | Every step of a connection keeps its invariant: the stages of the OPEN/OKAY/CLSE handshake under crossing messages, nothing behind a CLSE, and the bytes of both directions |
| `Connection.EventMoves` | adb/sockets.cpp:250-373 | An event loses bytes only by destroying the socket, sends exactly what it takes from the fd, and a connected socket that dies says CLSE last |
| `Connection.EnqueueMoves` | adb/sockets.cpp:125-177 | Enqueuing adds the payload to what the socket has, under any partial write, or destroys the socket with a CLSE |
| `Connection.EventOutlivedIff` | adb/sockets.cpp:250-373 | A live socket outlives an event if and only if no write failed before the end of the queue and no read found the end of the file; a closing one if and only if it still has something to write and no fault was met |
| `Connection.EventCarries` | adb/sockets.cpp:250-373 | The fd is given the front of the queue and the peer all that was read, unless the write part returned early |
| `Connection.EnqueueOutcome` | adb/sockets.cpp:125-177 | A payload is acknowledged at once if and only if it was written whole, otherwise kept, and the socket dies of it if and only if writing it failed |
| `Connection.CloseOutcome` | adb/sockets.cpp:182-246 | A socket that is closed tells its peer once, and stays only to write what is queued |
| `Credit.EventCredit` | adb/sockets.cpp:250-373 | An event keeps at least one credit per direction, and exactly one if every read was asked for |
| `Credit.DeliverCredit` | adb/adb.cpp:369-445 | A delivery keeps at least one credit per direction, and exactly one if there was exactly one |
| `Stream.DropCat` | adb/sockets.cpp:259-288 | Removing n written bytes from the queue leaves exactly the other bytes, and an empty queue exactly when all were written |
| `Endpoint.CloseBelowEffect` | adb/sockets.cpp:109-123 | Each bound socket is closed as by itself, once, and no other socket is touched |
| `Endpoint.CloseBelowNotices` | adb/sockets.cpp:109-123 | The packets sent, counted, are exactly one CLSE for each connected socket that was closed |
| `Endpoint.OpenAnswered` | adb/adb.cpp:369-383 | An OPEN gets a new socket, found under both ids, bound to the transport it came on and reported with OKAY, or is refused with CLSE |
| `Endpoint.OkayReadies` | adb/adb.cpp:385-406 | An OKAY gives a socket its peer, on the transport it came on, or comes from that peer, and makes it ready; any other is ignored, or answered with CLSE if there is no such socket |
| `Endpoint.RefusalClosesIff` | adb/adb.cpp:408-428 | A CLSE that names no peer closes a socket if and only if it has none, or one of that transport |
| `Endpoint.PeerIsHeard` | adb/adb.cpp:408-445 | CLSE and WRTE reach a socket if and only if they come from its peer, and touch no other |
| `Endpoint.NobodyIsAddressed` | adb/adb.cpp:369-445 | Packets whose ids name no socket, or that come while the transport is offline, are ignored |
| `Endpoint.ConnectOpens` | adb/sockets.cpp:519-534 | A new client gets the next id, a live socket bound to the transport and an OPEN that carries its destination |
| `Endpoint.TakesIdIff` | adb/adb.cpp:369-383 | An id is used up exactly by an OPEN that starts a service |
| `Sockets.WriteQueue` | adb/sockets.cpp:257-288 | The write loops take a prefix of the queue, packet by packet, and leave the rest, whatever each adb_write does |
| `Sockets.ReadAll` | adb/sockets.cpp:315-332 | The read loop gathers what the adb_reads give up to the payload limit, and sees the end of the file |
| `Sockets.GatheredUpTo` | adb/sockets.cpp:315-332 | What the calls give is gathered while there is room; a call that gives nothing or fails is the end of the file, one that would block is not |
| `Sockets.LocalSocketClose` | adb/sockets.cpp:212-248 | Tells the peer once, and destroys the socket or puts it on the closing list |
| `Sockets.LocalSocketEnqueue` | adb/sockets.cpp:125-177 | Writes, queues or closes as specified, and returns 0 exactly where the caller sends the OKAY |
| `Sockets.DrainQueue` | adb/sockets.cpp:257-305 | The FDE_WRITE half of the event function |
| `Sockets.PumpInput` | adb/sockets.cpp:307-372 | The FDE_READ half of the event function, with remote_socket_enqueue |
| `Sockets.Adb.LocalSocketEvent` | adb/sockets.cpp:250-383 | The whole event function on the table and the packets it sends, as an event the runs allow: within the payload limit |
| `Sockets.Adb.Handle` | adb/adb.cpp:369-445 | handle_packet for OPEN, OKAY, CLSE and WRTE: the table after it and the packets sent |
| `Sockets.Adb.Found` | adb/sockets.cpp:60-76 | find_local_socket finds a live socket, connected to the given peer unless that is 0 |
| `Sockets.Adb.ConnectToRemote` | adb/sockets.cpp:519-534 | A new socket gets the next id and sends OPEN with its destination |
| `Sockets.Adb.CloseAllSockets` | adb/sockets.cpp:109-123 | The restarting scan ends, equals closing each bound socket once, and leaves no live socket bound to the transport |
| `Io.ReadFdExactly` | adb/adb_io.cpp:68-93 | Gives exactly the next bytes, or fails; without read errors it fails only at the end of the stream |
| `Io.WriteFdExactly` | adb/adb_io.cpp:95-122 | Writes all of the data or, failing, a prefix; EAGAIN alone never makes it fail |
| `Wire.RoundTrip` | adb/transport_local.cpp:97-132 | A packet reads back as it was, with the rest of the stream in place, if and only if it is within the limit |
| `Wire.StreamRoundTrip` | adb/transport_local.cpp:97-132 | Any list of packets within the limit reads back as the same list |
| `Wire.ChecksumExact` | adb/transport.cpp:159-165 | The checksum of a payload within the maximum never wraps 32 bits |
| `Wire.OneByteDamageRefused` | adb/transport.cpp:1054-1071 | A payload with one byte changed is refused |
| `Wire.HeaderDecides` | adb/transport.cpp:1038-1071 | A packet is accepted if and only if its length is within the limit and its checksum is right |
| `Wire.Checksum` | adb/transport.cpp:159-165 | The loop on a 32-bit counter gives the sum of the bytes modulo 2^32 |
| `Wire.SendPacket` | adb/transport.cpp:151-179 | The stream grows by the encoded packet, whatever the writes take |
| `Wire.RemoteRead` | adb/transport_local.cpp:97-120 | Parses the next packet under any partial reads and leaves the stream behind it; a read error refuses it |
| `Wire.ExchangeAgrees` | adb/transport.cpp:764-767 | After a CONNECT exchange both ends hold the same version and limit, neither above either side's own and each equal to one of them, and each accepts what the other may send |
| `Wire.HeaderLayout` | adb/adb.h:58-65 | An amessage is its six words in the order command, arguments, length, checksum, magic |
| `Wire.SumAdds` | adb/transport.cpp:159-165 | The checksum of two parts is the sum of theirs, and that of one byte the byte |
| `Link.LinkCarriesStreams` | adb/sockets.cpp:860-869 | After an exchange, in every run, everything in flight either way is parsed by the other side to exactly the packets sent, and nothing in flight is longer than what either side has room for |
| `Link.CodesSpell` | adb/adb.h:37-40 | The command codes are the four letters of the commands |
| `Link.WiredApart` | adb/transport.cpp:151-179 | Different packets differ on the wire |
| `Link.RunIds` | adb/sockets.cpp:88-93 | Ids stay within the counter in every run |
| `Transport.ClosedAndDeletedOnce` | adb/transport.cpp:497-622 | In every interleaving the transport is kicked, closed and deleted at most once, closed exactly when both threads have dropped their reference, deleted only then, never used after, and the count is positive at each drop |
| `Transport.NothingIgnoredAfterEcho` | adb/transport.cpp:261-291 | What main sends after echoing SYNC(1) is what the writer has written and what is ahead of it and will find it active, in order |
| `Transport.RestsDeleted` | adb/transport.cpp:232-247 | At rest the transport is deleted if and only if the reader managed to post a SYNC(0) or the writer's read failed |
| `Transport.FailedPostLeaks` | adb/transport.cpp:207-211 | A reader whose first post fails leaves the transport with a reference for ever |
| `Transport.NextInv` | adb/transport.cpp:194-296 | Every step of reader, writer and main keeps the counts, the order of mail and the SYNC tokens |
| `Transport.ReachableInv` | adb/transport.cpp:527-562 | The invariant holds in every state reachable from registration |
| `Transport.KickedIff` | adb/transport.cpp:298-306 | Over every run, the transport has been kicked if and only if a thread on its way out found it listed |
| `Transport.ReaderGoesOn` | adb/transport.cpp:194-247 | The reader's way from SYNC(1) to its last reference, and exactly what it posts |
| `Transport.WriterGoesOn` | adb/transport.cpp:252-296 | The writer's way, when it becomes active, and exactly what it writes |
| `Transport.MainGoesOn` | adb/adb.cpp:327-339 | Main echoes every SYNC, and exactly what it gives the writer |
| `Transport.LifeGoesOn` | adb/transport.cpp:497-622 | Listing, kicks, references, closing, removal and deletion, step by step |
| `Transport.EnabledIff` | adb/transport.cpp:194-296 | When each thread can take each of its steps |
| `Fdevent.ApplyValid` | adb/fdevent.cpp:136-218 | Install, remove and re-arming keep the loop consistent: interest bits equal state bits, and the pending list has no duplicates and exactly the fdevents flagged pending, each with events; none adds to the list |
| `Fdevent.InstallOutcome` | adb/fdevent.cpp:136-153 | An installed fdevent is in the table, wants nothing and has nothing to report; no other is touched |
| `Fdevent.RemoveOutcome` | adb/fdevent.cpp:155-170 | A removed fdevent is neither polled nor pending, and its fd is closed unless it was to be kept; no other is touched |
| `Fdevent.SetOutcome` | adb/fdevent.cpp:172-218 | An fdevent wants and is polled for exactly the bits given, and of what it was to be told it is told what is among them; no other is touched |
| `Fdevent.ForceOutcome` | adb/fdevent.cpp:303-342 | A finished subprocess marks its fdevent, and makes it read if it is pending and nothing is left |
| `Fdevent.DirectOutcome` | adb/fdevent.cpp:303-342 | Its callback is called at once, to read, if and only if it was not pending and nothing is left |
| `Fdevent.EventLoop.InstallFde` | adb/fdevent.cpp:136-153 | fdevent_install on the table |
| `Fdevent.EventLoop.RemoveFde` | adb/fdevent.cpp:155-170 | fdevent_remove takes the fdevent out of the table and out of the pending list |
| `Fdevent.EventLoop.SetFde` | adb/fdevent.cpp:172-218 | fdevent_set, with the interest bits and no longer wanted events |
| `Fdevent.EventLoop.Process` | adb/fdevent.cpp:235-279 | In whatever order the table is walked, each fdevent is told to read if it asked and can or its fd is broken, to write if it asked and can, and of an error if its fd is broken, and is pending if that is anything |
| `Fdevent.EventLoop.Dispatch` | adb/fdevent.cpp:281-289 | Whatever the callbacks do, the inner loop ends: it calls the pending fdevents from the front and stops early exactly where a CHECK of an operation fails; every call, direct calls for a finished subprocess included, is for an installed fdevent flagged pending, with events, and reports writable only where it is wanted |
| `Fdevent.ScriptRunsIff` | adb/fdevent.cpp:281-289 | A callback does all its operations, to their joint effect, if and only if the CHECKs of each hold in turn |
| `Fdevent.FirstDoesFirst` | adb/fdevent.cpp:377-381 | The inner loop calls the first pending fdevent, with what its callback does, and goes on from there |
| `Fdevent.EachIsCalled` | adb/fdevent.cpp:377-381 | Unless a CHECK fails, every fdevent pending at the start is called, or a callback called before removed it or changed what it is to be told of |
| `Fdevent.CalledWerePending` | adb/fdevent.cpp:377-381 | The inner loop calls only fdevents that were pending when it began |
| `Fdevent.CalledOnce` | adb/fdevent.cpp:377-381 | It calls none of them twice |
| `Fdevent.EventLoop.ForceEof` | adb/fdevent.cpp:303-342 | A finished subprocess: its fd is marked and its read pending, or its callback called at once |
| `Fdevent.EventLoop.Run` | adb/fdevent.cpp:361-383 | Over any number of turns, each finds the table the one before left, reports what poll said of it and calls as the inner loop does; only a failed CHECK ends the run early |
| `Sync.SessionsStayAligned` | adb/file_sync_service.cpp:383-438 | Over any sequence of successful STAT, LIST, SEND of files and links, and RECV, pipelined or not, the server consumes exactly what the client wrote and the client exactly what the server wrote, and each answer is the one the command means for the files as then left |
| `Sync.ServeConsumes` | adb/file_sync_service.cpp:259-428 | The server takes exactly one command off the stream, changes the files and writes the reply as the command means |
| `Sync.HandledIff` | adb/file_sync_service.cpp:306-428 | Exactly which commands are served, and that only SEND changes anything, at its own path |
| `Sync.AnswerConsumes` | adb/file_sync_client.cpp:435-583 | The client takes exactly the reply off the stream and reads from it what the command means |
| `Sync.PipelinedStats` | adb/file_sync_client.cpp:677-696 | The i-th answer of a pipeline of STATs is the i-th file's |
| `Sync.BodyRoundTrip` | adb/file_sync_service.cpp:185-219 | However a file is cut into DATA messages, the body received is the file, with the time and the rest of the stream |
| `Sync.LinkRoundTrip` | adb/file_sync_service.cpp:263-300 | A link sent as one DATA and DONE is taken off the stream exactly |
| `Sync.TargetRead` | adb/file_sync_service.cpp:276-278 | Whatever is left in the buffer from before, the link is made to the target that was sent, up to its NUL |
| `Sync.ChopIs` | adb/file_sync_service.cpp:361-374 | Whatever each read gives, the pieces make up the file |
| `Sync.ListingRoundTrip` | adb/file_sync_client.cpp:439-454 | A listing reads back if and only if no name is longer than 256 bytes |
| `Sync.SpecRoundTrip` | adb/file_sync_service.cpp:306-321 | Path and mode are recovered from the request, commas in the path included |
| `Sync.PermissionBitsAre` | adb/file_sync_service.cpp:334-337 | The user's bits stay, the group adds the user's to its own, others add both, and nothing else is left |
| `Sync.PushedKeepsMode` | adb/file_sync_service.cpp:334-337 | A pushed file is a regular one whose user has the bits sent, its group those and the user's, others all of them |
| `Sync.EntriesAre` | adb/file_sync_service.cpp:97-131 | A listing has one entry, in order, for each name that has a file, with its mode, size and time, and none for the others |
| `Sync.ListingLayout` | adb/file_sync_service.cpp:97-131 | A listing is its entries, with mode, size, time, length and name, and DONE with zeros |
| `Sync.ReadsThroughLinks` | adb/file_sync_service.cpp:350-359 | What can be opened and what is read of it, for files, links and directories |
| `Sync.LinkMadeIff` | adb/file_sync_service.cpp:276-290 | A link is made if and only if its target has 1 to 4095 bytes and no directory is in its way |
| `Sync.KindsAre` | adb/file_sync_service.cpp:324-331 | Which modes are links and which directories |
| `Sync.RequestsSpell` | adb/file_sync_service.h:25-34 | The ids of the requests are their four letters |
| `Sync.AnswersSpell` | adb/file_sync_service.h:25-34 | So are those of the messages that follow and answer them |
| `Sync.PushCopiesIff` | adb/file_sync_client.cpp:207-263 | A push is served unless a directory is in its way; the copy has the source's bytes, or the link's target, if and only if it is a link, the file was small or no poll reported anything before its last piece; it always has a prefix, the time and the mode sent, widened to group and others, and other files are untouched |
| `Sync.PollFailureTruncates` | adb/file_sync_client.cpp:133-141 | A failed poll cuts a large file short |
| `Sync.PushThenPull` | adb/file_sync_client.cpp:476-583 | A pushed file is reported with its size, time and permissions and comes back unchanged when pulled; a pushed link is reported with the length of its target and pulled as the file it leads to |
| `SyncService.ReceiveBody` | adb/file_sync_service.cpp:185-208 | The receiving loop writes the body to the file and stops behind DONE; without faults it fails only on a wrong message or at the end of the stream, and tells which |
| `SyncService.DoStat` | adb/file_sync_service.cpp:82-95 | The STAT reply, all zeros for a missing path |
| `SyncService.DoList` | adb/file_sync_service.cpp:97-131 | One DENT for each listed name that can be stat'ed, then DONE |
| `SyncService.DoRecv` | adb/file_sync_service.cpp:350-381 | The file in pieces as it is read, then DONE |
| `SyncService.Server.HandleSendLink` | adb/file_sync_service.cpp:259-303 | The link is stored under its path and OKAY sent; without faults it fails only as specified, and says FAIL unless the stream just ended |
| `SyncService.Server.HandleSendFile` | adb/file_sync_service.cpp:149-220 | The file is stored under its path with its mode and time and OKAY sent; without faults it fails only as specified, and says FAIL unless the stream just ended |
| `SyncService.Server.DoSend` | adb/file_sync_service.cpp:306-348 | The file or the link is stored under its path, and OKAY is sent; without faults it fails only as specified, and says FAIL unless the stream just ended |
| `SyncService.Server.HandleSyncCommand` | adb/file_sync_service.cpp:383-428 | Serves one command as specified and, without faults of the descriptors, goes on exactly when it was served; otherwise it has sent one FAIL, and nothing on QUIT or when the stream ended inside a SEND |
| `SyncService.Server.FileSyncService` | adb/file_sync_service.cpp:430-438 | The command loop serves a session and, without faults, stops before its end exactly at a command that is not served, with FAIL or nothing as for one command |
| `SyncClient.SyncConnection.SendRequest` | adb/file_sync_client.cpp:143-161 | Sends the request, or nothing if the path is longer than 1024 |
| `SyncClient.SyncConnection.SendSmallFile` | adb/file_sync_client.cpp:165-205 | One write that holds request, data and DONE |
| `SyncClient.SyncConnection.SendLargeFile` | adb/file_sync_client.cpp:207-263 | Request, the pieces as read until the end or until a poll reports something, and DONE |
| `SyncClient.SendPieces` | adb/file_sync_client.cpp:232-254 | The sending loop puts out exactly the pieces kept |
| `SyncClient.SyncConnection.CopyDone` | adb/file_sync_client.cpp:265-297 | Succeeds exactly on OKAY, and takes exactly the status off the stream, with the reason if it is FAIL |
| `SyncClient.SyncConnection.SyncSend` | adb/file_sync_client.cpp:476-519 | On success the stream has grown by one SEND of the file, or of the link's target, and OKAY was read; without faults it succeeds exactly if the path is short enough and OKAY is there |
| `SyncClient.SyncConnection.SyncFinishStat` | adb/file_sync_client.cpp:457-469 | Takes exactly one STAT reply off the stream, and without faults succeeds exactly if there is one |
| `SyncClient.SyncConnection.SyncLs` | adb/file_sync_client.cpp:435-455 | Requests a listing and takes exactly it off the stream; without faults it succeeds exactly if the path is short enough and there is one |
| `SyncClient.ReceiveListing` | adb/file_sync_client.cpp:439-454 | The listing loop reads entries up to DONE, and fails only as specified |
| `SyncClient.SyncConnection.SyncRecv` | adb/file_sync_client.cpp:521-583 | STAT and RECV are sent, and the new file has the content received; without faults it succeeds exactly if the path is short enough and both are answered |
| `SyncClient.SyncConnection.SendStats` | adb/file_sync_client.cpp:677-682 | One STAT per file; without faults it fails exactly if a path is too long |
| `SyncClient.SyncConnection.FinishStats` | adb/file_sync_client.cpp:683-696 | One answer per file, up to the first that is none; without faults it succeeds exactly if every file has its answer |
| `SyncClient.SyncConnection.MarkUpToDate` | adb/file_sync_client.cpp:677-696 | All requests, then all answers; the list is changed in place so that each file answered for is skipped exactly if its own answer says it is up to date; without faults it succeeds exactly if every path is short enough and every file has its answer |
| `SyncClient.SkippedIff` | adb/file_sync_client.cpp:688-694 | A file or link is skipped if and only if the device has one of the same size that is a link and not older, for a link, or else is a regular file, a link or a socket of the same time |
| `SyncClient.SkippedForItsKindIff` | adb/file_sync_client.cpp:688-694 | What is skipped is of the same kind on the device if and only if nothing of another kind has its size and time there |
| `SyncClient.LinkPassesForFile` | adb/file_sync_client.cpp:690-691 | A regular file is skipped though the device has a link |
| `Shell.ReadsEverything` | adb/shell_service_protocol.cpp:32-54 | For any buffer of at least one byte, repeated reads give exactly the pieces of the packets, in order, and end with the stream |
| `Shell.SplitIs` | adb/shell_service_protocol.cpp:45-51 | The pieces of a packet carry its id, fit the buffer and make up its payload |
| `Shell.SameBytesPerId` | adb/shell_service_protocol.cpp:32-62 | Whatever has been read under an id, of a stream that may end anywhere, is a prefix of what was written under it, and in the end all of it |
| `Shell.InputDiesIff` | adb/shell_service.cpp:571-638 | Exactly when PassInput finds the protocol or stdin dead, and how much is left to write otherwise |
| `Shell.BuryOutcome` | adb/shell_service.cpp:481-504 | A dead fd is closed and no longer waited on, and with the protocol both pipes go |
| `Shell.RoundOutcome` | adb/shell_service.cpp:513-569 | What a round closes, and which PassInput it makes |
| `Shell.PacketLayout` | adb/shell_service_protocol.cpp:55-61 | A packet is its id, its length and its data |
| `Shell.StdinArrives` | adb/shell_service.cpp:462-638 | In every run of the select loop, on a stream that may end inside a packet, the subprocess has been given a prefix of the stdin data sent; while stdin lives, what it was given and what is pending are exactly the stdin data read so far |
| `Shell.NextInv` | adb/shell_service.cpp:521-567 | Each round keeps what stdin has plus what is pending equal to what was read, and waits on the protocol exactly when nothing is pending and on stdin exactly when something is |
| `Shell.DeadStdinReadsOnIff` | adb/shell_service.cpp:479-564 | After stdin has died the protocol is read on if and only if stderr is left and a write noticed the death or nothing was pending; if not, never again |
| `Shell.PendingInputDeafens` | adb/shell_service.cpp:535-553 | Stdin of a raw subprocess hanging up during a pending write leaves the loop going and the protocol unwatched |
| `Shell.ShellProtocol.Read` | adb/shell_service_protocol.cpp:32-54 | Reads the next piece of the current packet or the first of the next |
| `Shell.ShellProtocol.Write` | adb/shell_service_protocol.cpp:56-62 | The packet goes out whole |
| `Shell.Subprocess.PassInput` | adb/shell_service.cpp:569-638 | The state after it, the bytes given to stdin and the fd that died |
| `Shell.Subprocess.PassDataStreams` | adb/shell_service.cpp:462-567 | The loops until the protocol or both pipes are gone are the specified run, whichever fd dies and if select fails |
| `Shell.Subprocess.Round` | adb/shell_service.cpp:535-563 | What follows a select: output, input and the fds waited on next |
| `Shell.PassOutput` | adb/shell_service.cpp:640-658 | One read of output becomes one packet, so that the stream holds under the id exactly what was read |
| `SmartSocket.FrameCut` | adb/sockets.cpp:650-697 | However a frame is cut into packets, exactly one request comes of it, the one sent |
| `SmartSocket.SessionDecoded` | adb/sockets.cpp:650-742 | A session of requests, each cut in any way, is decoded to exactly the requests sent, in order |
| `SmartSocket.SecondRequestIff` | adb/sockets.cpp:660-742 | Two requests in one stream are both decoded if and only if some packet ends where the first does |
| `SmartSocket.BytesBehindRequest` | adb/sockets.cpp:738-742 | Whatever comes behind a transport request is lost in its packet, and begins the next request in a packet of its own |
| `SmartSocket.LengthDecides` | adb/sockets.cpp:678-703 | As soon as four bytes have come, a length of 1 to 4096 is waited for and what follows it is the request; any other closes the socket |
| `SmartSocket.NoNumberCloses` | adb/sockets.cpp:557-587 | A byte that is no hexadecimal digit closes the socket |
| `SmartSocket.FewBytesWait` | adb/sockets.cpp:649-680 | Fewer than four bytes are kept, unless they do not fit |
| `SmartSocket.FramedIff` | adb/adb_io.cpp:30-41 | A string is sent behind its length if and only if it has at most 4092 bytes |
| `SmartSocket.HoldsWithinLimit` | adb/sockets.cpp:660-675 | Whatever is sent, the socket never holds more than the payload limit |
| `SmartSocket.UnhexHex4` | adb/adb_io.cpp:30-40 | unhex undoes the four hexadecimal digits of the length |
| `SmartSocket.Unhex` | adb/sockets.cpp:557-598 | The loop gives the value, or 0xffffffff on a character that is no digit |
| `SmartSocket.Socket.EnqueuePacket` | adb/sockets.cpp:650-820 | smart_socket_enqueue on the socket's state, and its return value for every fate of a request |
| `Utf8.NothingLost` | adb/sysdeps_win32.cpp:2474-2491 | For any bytes in any writes: what was put out, then what is held, is what came in, and at most three bytes are held |
| `Utf8.WholeCharacters` | adb/sysdeps_win32.cpp:2418-2454 | A valid stream, however cut, is put out in whole characters and nothing is held at the end |
| `Utf8.ScanValid` | adb/sysdeps_win32.cpp:2422-2448 | The backward scan of a prefix of valid text stops at a character boundary |
| `Utf8.CodepointLenTable` | adb/sysdeps_win32.cpp:2409-2411 | The shift gives the length that belongs to each lead byte |
| `Utf8.LeadLenIs` | adb/sysdeps_win32.cpp:2409-2411 | The length the scan holds back by is the one of the table |
| `Utf8.ParseCompleteUTF8` | adb/sysdeps_win32.cpp:2418-2454 | The loop's split into complete and remaining bytes |
| `Utf8.Console.WriteUtf8` | adb/sysdeps_win32.cpp:2474-2491 | What is put out and what the buffer holds after a write |
| `Listeners.ListenersAndHooksAgree` | adb/adb_listeners.cpp:157-265 | In every run names are unique, all but special listeners have a transport, a hook is in a transport's list exactly once if its listener is bound to it and otherwise not, and after a disconnect exactly the listeners bound elsewhere remain |
| `Listeners.ApplyInv` | adb/adb_listeners.cpp:84-265 | Every operation keeps names unique and hooks and bindings in agreement |
| `Listeners.RunDisconnectsInv` | adb/transport.cpp:831-836 | RunDisconnects frees exactly the listeners bound to the transport and leaves other transports' lists alone |
| `Listeners.RemoveAllInv` | adb/adb_listeners.cpp:169-179 | remove_all_listeners leaves exactly the special listeners, in order |
| `Listeners.RebindInv` | adb/adb_listeners.cpp:203-216 | Rebinding moves the hook from the old transport to the new one |
| `Listeners.InstallOutcome` | adb/adb_listeners.cpp:181-246 | When a listener is installed and with what status otherwise; then it alone has the name and leads where it was told, and every other stays |
| `Listeners.RemoveOutcome` | adb/adb_listeners.cpp:157-167 | A listener is removed if and only if there is one of that name, and every other stays |
| `Listeners.FreeInv` | adb/adb_listeners.cpp:84-105 | Freeing a listener takes its hook with it |
| `Listeners.Table.InstallListener` | adb/adb_listeners.cpp:181-265 | install_listener in place: found, special, not to be rebound, rebound, not bindable or added |
| `Listeners.Table.RemoveListener` | adb/adb_listeners.cpp:157-167 | Removes the listener of a name, or reports that there is none |
| `Listeners.Table.RemoveAllListeners` | adb/adb_listeners.cpp:169-179 | The loop over a list that shrinks under it |
| `Listeners.Table.FreeListener` | adb/adb_listeners.cpp:84-105 | free_listener in place |
| `Listeners.Table.RemoveDisconnect` | adb/transport.cpp:827-829 | Drops every occurrence of the hook |
| `Listeners.Table.DisconnectAll` | adb/transport.cpp:831-836 | Calls every hook, then clears the list |
| `Banner.BannerRoundTrip` | adb/adb.cpp:237-292 | Parsing a device's banner restores product, model, device, the exact feature set in any order and the kind, whatever the transport held |
| `Banner.BannerRestoresIff` | adb/adb.cpp:237-269 | The banner of any product, model and device restores those the transport does not hold already if and only if they are free of `:`, `;` and `=`, together and one by one |
| `Banner.DelimitersDropProduct` | adb/adb.cpp:237-269 | Banners of products called "a=b", "a;b" and "a:b" do not restore them |
| `Banner.ParsedPlain` | adb/adb.cpp:237-269 | Whatever the banner, a value it sets holds no delimiter |
| `Banner.PropertyTakenIff` | adb/adb.cpp:250-267 | A single property is taken if and only if its value holds no `=`; otherwise nothing changes |
| `Banner.KindsNamed` | adb/adb.cpp:272-291 | The four kinds of device are told by their names, and anything else is a host |
| `Banner.FeaturesRoundTrip` | adb/transport.cpp:796-808 | A feature set reads back from any order of writing |
| `Banner.SplitJoin` | base/strings.cpp:31-46 | Splitting undoes joining when no part holds the delimiter |
| `Banner.JoinSplit` | base/strings.cpp:31-46 | Joining undoes splitting, for every string |
| `Banner.SplitString` | base/strings.cpp:31-46 | The loop splits at every delimiter |
| `Banner.AdbTransport.ParseBanner` | adb/adb.cpp:237-292 | parse_banner on the transport's fields: features cleared, properties read one by one, and the kind |
| `Banner.AdbTransport.SetFeatures` | adb/transport.cpp:800-821 | Replaces the features by those of the string, none for an empty one |
| `Banner.GetConnectionString` | adb/adb.cpp:181-205 | The banner of the given properties and features |
| `EventLog.ReleasedDecodes` | bootstat/event_log_list_builder.cpp:32-107 | After any appends the payload is at most 511 bytes, its count byte is right, and it decodes to exactly the values whose append returned true |
| `EventLog.TakenIff` | bootstat/event_log_list_builder.cpp:46-74 | An int is taken if six bytes are left, a string if five and its own are, and otherwise nothing changes |
| `EventLog.EncodeLayout` | bootstat/event_log_list_builder.cpp:46-74 | A value is its type and a word, behind which a string has its bytes |
| `EventLog.ListLayout` | bootstat/event_log_list_builder.cpp:76-84 | A list is its type, its count and its values |
| `EventLog.ChecksPassIff` | bootstat/event_log_list_builder.cpp:86-95 | The debug checks of an append fail if and only if a string fills the payload to its last byte |
| `EventLog.AllChecksPassIff` | bootstat/event_log_list_builder.cpp:86-95 | Over any appends the checks have passed if and only if the payload is not full |
| `EventLog.FullPayloadFailsCheck` | bootstat/event_log_list_builder.cpp:87-87 | A string of 504 bytes in an empty list fails the check |
| `EventLog.EventLogListBuilder.AppendInt` | bootstat/event_log_list_builder.cpp:46-58 | Taken if six bytes are left, and then at the end of the payload |
| `EventLog.EventLogListBuilder.AppendString` | bootstat/event_log_list_builder.cpp:60-74 | Taken if it fits with type and length, and then at the end of the payload |
| `EventLog.EventLogListBuilder.Release` | bootstat/event_log_list_builder.cpp:76-84 | The payload with its count byte set |
| `Handles.HintIsExact` | adb/sysdeps_win32.cpp:236-286 | Over every sequence of allocations and closes the slots given are those of a scan from zero |
| `Handles.ApplyPlain` | adb/sysdeps_win32.cpp:236-286 | Every operation keeps all slots below the hint in use and does what it would do without a hint |
| `Handles.HandleTable.Alloc` | adb/sysdeps_win32.cpp:236-262 | Gives the lowest free slot, and fails only when the table is full, changing nothing |
| `Handles.HandleTable.Close` | adb/sysdeps_win32.cpp:265-286 | Frees the slot and lowers the hint, of a handle in use or not |

## Left out

- Sockets.Adb.Handle: SYNC and CNXN are in `Transport`, `Wire` and `Banner`, AUTH is not modelled; an OPEN that starts a service requires an id to be left, where the source ends the process.
- Streams.RunInv: the transport stays online for the whole run; going offline is `Sockets.Adb.CloseAllSockets` by itself.
- Sockets.Adb.ConnectToRemote: requires an id to be left and a destination that fits, where the source ends the process.
- SyncService.Server.DoSend: ownership, labels, `fs_config`, modes of 2^31 and more, and the forms of a mode other than the decimal one the client writes.
- Sync.Handle: what a link on the device leads to is a parameter of each command, as are the time and the old content of the buffer.
- SyncService.Server.HandleSyncCommand: the text of FAIL replies, what a failed SEND leaves of the file, and the loop that drains input after a failure, which the source never leaves once the stream has ended.
- Shell.Subprocess.PassInput: the window size call.
- Shell.Subprocess.PassDataStreams: the SIGHUP sent when the protocol dies.
- EventLog.EventLogListBuilder.AppendString: strings of 2^31 bytes and more, whose length does not fit the int it is kept in.
- Listeners.Table.InstallListener: requires that a listener is rebound only between existing transports and that only special ones are installed without, as its callers do; the source follows both pointers unchecked.
- Local-to-local socket pairs, JDWP and device-tracker sockets: their close and enqueue rules differ from those of streams.
- `force_eof` of subprocess fds: with a remote peer the condition that reads it is never true.
- USB transports, process launching, mount services and other platform code.
- RSA keys and signatures.
- The command line, progress reports, tracing and logging.
- `skip_host_serial` and the host requests behind the smart socket.
- Conversion of console output to UTF-16.
- `escape_arg`, the emulator slot table and boot-event storage.
- Real time, sleeps, thread names and failure of memory allocation.
