# Verified model of adb, fastboot and mkbootfs

A Dafny model of the protocols and formats at the centre of these tools, with proofs of what they
rely on. `dafny verify dfyconfig.toml` checks everything. Nothing here was executed.

**adb streams.** `StreamSocket` gives one local socket as a value: what an event on its descriptor
and what each packet does to it and what it then sends. `StreamPair` states the invariant of one
stream between two machines, `StreamWorld` interleaves any number of streams over one transport in
any order, `StreamTheorems` and `StreamProgress` draw the consequences for every run: one credit per
direction, in-order delivery, what a close delivers, and that a credit of an open stream can always
come back. `StreamTraces` and `StreamHalfOpen` follow the moves of a run: which of them lose bytes of
a stream being closed, and when the end that is left hears that the other is gone. `StreamHistories`
ties what a socket has read and written, and whether it is open, to what the descriptors gave and took.
`SocketTable` is
the same machinery as the program keeps it, in tables and lists that are updated in place: every
method keeps the socket graph consistent and does to the sockets what the stream model says. `SocketIo`
has its loops of reads and writes.
`StreamLink` joins two such processes by a transport and shows that they go through a run of the
stream model. `PacketCodec` and `FdIo` put the packets on the wire, `StreamWire` carries the queues of
every run over it, `TransportLifecycle` runs the two transport threads beside the main loop.

**adb's supporting parts.** `FdEvent` is the select-based event loop, `BipBuffer` the two-region ring
buffer of the Windows port and `BipThreads` the reader, the writer and the closer that share it,
`SmartSocket` and `Hex` the reassembly and addressing of host requests, `SyncProtocol` pushing and
pulling files, `SyncInfo` asking about them, `SyncSession` a sequence of all four requests.

**fastboot.** `SparseDownload` is the 1024-byte staging buffer, `ActionQueue` the queue of actions and
its execution, `Requirements` the parser of requirement lines, `Update` the queue of an update, what
gates it, and an update from its requirements to the images delivered.

**mkbootfs.** `Cpio` is the archive writer with a reader written from the published newc format,
`BootFs` says which entries a tree has and in which order, `BootFsWalk` is the recursion over the two
shared path buffers.

`ByteSeqs`, `IdLists`, `CStrings` and `Wrappers` hold vocabulary. `LinkedLists` is the circular list
with which adb keeps pending events, sockets and disconnect callbacks, link by link, and shows that it
holds the sequences of `IdLists`.

Time, descriptors, sockets, the USB bus, the file system and the device's answers are parameters: a
write or a read takes its result from a list, a run takes its next step from all that are enabled.

Where the code and its comments differ, the model follows the code:

- `fdevent_set` clears from the pending events those that are wanted, although its comment says those
  that are not (core/adb/fdevent.cpp:641-645). `SetKeepsUnwanted` says exactly when nothing unwanted
  stays pending, `UnwantedReadStays` drives a loop to where an event does.
- Because of that a READ can reach a socket that is closing, and with it the promise that a closing
  socket is destroyed only after its queue is written fails: `LateReadLosesBytes` is such a run, and
  `GracefulCloseExact` says for every run that the bytes are all written if and only if no READ with
  end of file and no failing write met the socket while it was closing.
- A socket closed before its OPEN is answered sends no CLSE, and the OKAY that comes for it is
  ignored, so the service stays half open: `LeftHalfOpen` is such a run, `CloseIsTold` says exactly
  when a CLSE is on its way to the end that is left.
- mkbootfs says that directories named "root" are left out; it leaves out every entry of that name.
- `sync_recv` returns 0 after a failure sent by the device, having removed the file: `StatusExactly`
  says when 0 is returned and when the file is there, `RefusedWithStatusZero` is the case in between.
- A push whose directories cannot be made or whose owner cannot be set may be stored and is still
  reported as refused, which ends the session: `ToldExactly` has the exact condition, `OwnerNotSet` the
  failing case, and `SessionFaithful` says what every session comes to.
- A file sent under a name without a mode, which no client does, is written over what was there:
  `TailStays` says when the old end shows.
- A reader of the Windows ring buffer that waited and is woken by a close reports an error even if
  bytes have arrived in the meantime. `FailsExactly` says that it leaves bytes behind if and only if a
  write went through after its last look, `FailsWithBytes` is such a run.
- `setup_requirements` looks only at lines that end in a newline; `TextQueued` and `LinesCover` say
  what that means for a last line without one.

## Model

| member | source | states |
|---|---|---|
| StreamTheorems.CreditConservation | core/adb/sockets.cpp:134-403 | In every state of every run, an open stream holds exactly one credit per direction: the sender may read, or one WRTE is in flight, or the receiver has a backlog, or one OKAY is in flight |
| StreamTheorems.NeverTwoCredits | core/adb/sockets.cpp:478-499 | A stream never has a second unacknowledged WRTE, also while it is closing, and a backlog is at most one packet |
| StreamTheorems.InOrderDelivery | core/adb/sockets.cpp:151-184 | While the receiver is open, bytes written, queued and in flight are exactly the bytes the sender read; afterwards what was written is a prefix of them |
| StreamTheorems.ClosingEnds | core/adb/sockets.cpp:280-319 | A closing socket is destroyed with bytes unwritten if and only if the event was a READ or its write fell short |
| StreamTheorems.RunEvolves | core/adb/sockets.cpp:194-270 | Along every run a closed socket stays closed and keeps its cause, a destroyed one never changes, and bytes read and written only grow |
| StreamPair.EventKeeps | core/adb/sockets.cpp:272-403 | Every event on a descriptor, with any partial read or write, keeps the stream invariant |
| StreamPair.PacketKeeps | core/adb/adb.cpp:472-527 | Every packet of a stream keeps the stream invariant, also one that reaches a socket no longer live |
| StreamPair.AcceptKeeps | core/adb/adb.cpp:456-470 | Accepting an OPEN establishes the invariant of the new stream |
| StreamWorld.RunInv | core/adb/adb.cpp:456-527 | Every state of every interleaving of any number of streams satisfies the invariant of all of them |
| StreamProgress.RunAnswered | core/adb/adb.cpp:456-489 | Every live socket without a peer has its OPEN or the answer to it under way |
| StreamProgress.OpeningCredit | core/adb/sockets.cpp:568-584 | The credit of a stream being opened is its one OPEN, or it is being refused; until then it is not read |
| StreamProgress.CreditReturns | core/adb/sockets.cpp:187-192 | From every reachable state there is a way on, whatever other streams do, that lets the sender of an open stream read again |
| StreamTraces.RunHasTrace | core/adb/adb.cpp:456-527 | Every run is made by moves, so what is stated for every run with its moves holds of every run |
| StreamTraces.GracefulCloseExact | core/adb/sockets.cpp:230-392 | For every run, with its moves: a receiver closed by its peer's CLSE has written or holds all the sender read; destroyed, it has written all of it if and only if no READ with end of file and no write failing short reached it while it was closing |
| StreamTraces.LateReadLosesBytes | core/adb/sockets.cpp:330-392 | A run in which no write fails and whose last move, a READ that was pending when the closing began, destroys the socket with one of two bytes written |
| StreamHistories.History | core/adb/sockets.cpp:134-403 | For every run, with its moves, and every socket: it has read exactly what the READ events gave it while open, in order, and written exactly what the writes took; it is open if and only if no end of input, failing write, abort, CLSE of its peer or refusal has met it |
| StreamHistories.DescriptorToDescriptor | core/adb/sockets.cpp:134-403 | For every run, with its moves: what the writes at one end of a stream took is a prefix of what the reads at the other gave, and until something ends it the rest is waiting there or in flight |
| StreamHalfOpen.CloseIsTold | core/adb/sockets.cpp:230-270 | For every run, with its moves: when one end of a stream is gone and the other open, a CLSE is on its way to it if and only if the end that is gone knew its peer and was not closed by a disconnect |
| StreamHalfOpen.NothingFromStranger | core/adb/adb.cpp:472-489 | For every run: an end that went without learning its peer has nothing on its way to it, so what the other end waits for does not come |
| StreamHalfOpen.LeftHalfOpen | core/adb/adb.cpp:456-489 | A run that ends with the opener gone, the service open and nothing in flight |
| SocketTable.SocketGraph | core/adb/sockets.cpp:88-114 | What every operation keeps: peers are mutual, each local socket is on exactly one list, closing ones have id 0, no peer and packets left, WRITE is wanted exactly while packets wait, and an open socket with packets waiting has a peer |
| SocketIo.WriteLoop | core/adb/sockets.cpp:282-309 | For every sequence of results, as much of the packet is written as the writes before the first that makes no progress take; it failed exactly if that one was an error and bytes were left |
| SocketIo.ReadLoop | core/adb/sockets.cpp:337-355 | For every sequence of results, the bytes that the reads before the first that gives none gave, in order, up to 4096 of them; the file ended exactly if that one was the end or an error and there was room left |
| SocketIo.DrainLoop | core/adb/sockets.cpp:282-309 | What is left of a packet queue is the queue without the bytes written; it is empty exactly when all were |
| SocketTable.Adb.CreateLocalSocket | core/adb/sockets.cpp:405-419 | A new live socket with a fresh id that is never 0 |
| SocketTable.Adb.FindLocalSocket | core/adb/sockets.cpp:59-76 | The live socket with the id whose peer matches, or none if there is none |
| SocketTable.Adb.ConnectRemote | core/adb/sockets.cpp:547-566 | A remote peer linked both ways and registered with its transport |
| SocketTable.Adb.Close | core/adb/sockets.cpp:230-270 | Closing unlinks the peer, frees it, announces it and either frees the socket or moves it to the closing list; the graph stays consistent |
| SocketTable.Adb.LocalEnqueue | core/adb/sockets.cpp:134-185 | Data is written at once as far as the writes take it, queued or refused as the stream model says; 0 is returned exactly when all was written |
| SocketTable.Adb.OnWritable | core/adb/sockets.cpp:280-327 | The WRITE half of the event function writes a waiting packet as far as the writes take it and does what the stream model says; the peer it notifies exists |
| SocketTable.Adb.OnReadable | core/adb/sockets.cpp:330-392 | For a socket with a remote peer or none, the READ half of the event function takes the bytes that the reads gave, in their order, and does with them and with the end of the file what the stream model says |
| SocketTable.Adb.OnSmartReadable | core/adb/sockets.cpp:330-392 | The same for a socket with a smart peer: it goes on being read, is closed with its request refused, or has its OPEN sent; the end of its input closes it |
| SocketTable.Adb.Ready | core/adb/sockets.cpp:187-192 | The socket may be read again and nothing else changes |
| SocketTable.Adb.HandleOpen | core/adb/adb.cpp:456-470 | An OPEN creates a linked pair and answers OKAY, or answers CLSE when there is no service |
| SocketTable.Adb.HandleOkay | core/adb/adb.cpp:472-489 | The first OKAY gives the socket a remote peer on its transport; one from the peer lets it be read; a socket with a smart peer ignores it |
| SocketTable.Adb.HandleClse | core/adb/adb.cpp:491-512 | A CLSE closes the addressed socket and tells its peer, unless it carries no peer and comes from another transport |
| SocketTable.Adb.HandleWrte | core/adb/adb.cpp:514-527 | A WRTE is enqueued and acknowledged at once, to where it came from, exactly when all of it was written |
| SocketTable.Adb.HandlePacket | core/adb/adb.cpp:456-527 | For every packet and every table: the sockets after it and the packets sent to each transport, nothing while offline |
| SocketTable.HandledPlain | core/adb/adb.cpp:456-527 | With one transport that is the stream model's step: same sockets after, same packets sent |
| SocketTable.HandledForeign | core/adb/adb.cpp:472-512 | A CLSE without a peer from another transport, and an OKAY for a socket that still has a peer elsewhere without an id, change nothing and are not answered |
| SocketTable.Adb.FindUser | core/adb/sockets.cpp:116-132 | The first live socket on a transport, or none is left |
| SocketTable.Adb.CloseAllSockets | core/adb/sockets.cpp:116-132 | The restarted sweep terminates; the live sockets on the transport are closed in the order of the list, each telling its peer; none is left and no other is touched |
| SocketTable.Adb.Detach | core/adb/sockets.cpp:529-541 | A disconnect closes the local peer without a packet and frees the remote socket |
| SocketTable.Adb.RunTransportDisconnects | core/adb/transport.cpp:83-93 | The walk visits each remote socket of the transport once although callbacks unlink them; none is left, and a second walk does nothing |
| SocketTable.Adb.ConnectSmart | core/adb/sockets.cpp:895-902 | A socket gets a smart peer and is read |
| SocketTable.Adb.SmartConnect | core/adb/sockets.cpp:841-851 | The smart socket hands its peer over to a transport: OPEN sent, peer unread, smart socket gone |
| StreamLink.Dial | core/adb/sockets.cpp:568-584 | Creating a socket, giving it a smart peer and connecting it is the stream model's connect: a fresh unread socket and its OPEN |
| StreamLink.React | core/adb/sockets.cpp:272-403 | A process changes its tables in reaction to any input exactly by the action of the stream model that the input stands for, or not at all if it stands for none |
| StreamLink.Join | core/adb/adb.cpp:456-527 | Two processes that exchange packets over a transport have, after any inputs in any order, the sockets and queues of the stream model |
| StreamLink.TurnsAreRun | core/adb/adb.cpp:456-527 | And these are the last state of a run, so that whatever holds of all runs holds of the processes |
| TransportLifecycle.KickAndCloseOnce | core/adb/transport.cpp:48-63 | Over all interleavings of both threads and the main loop: kicked at most once, closed and removed exactly once and exactly when both threads are done, never closed unkicked |
| TransportLifecycle.UnrefNeverKicks | core/adb/transport.cpp:672-695 | The last unref finds the transport already kicked, and nobody who may still kick meets a closed one |
| TransportLifecycle.RemoteGetsWindow | core/adb/transport.cpp:301-350 | For every run: the remote end gets exactly the packets, of those sent to the input thread, between the online SYNC of its token and the offline SYNC, in order |
| TransportLifecycle.GoesOnline | core/adb/transport.cpp:246-276 | For every run: while the output thread pumps, its online SYNC with the current token is waiting for the main loop or has been sent on from there |
| TransportLifecycle.PacketGetsThrough | core/adb/transport.cpp:301-350 | From every state of every run in which both threads work and no offline SYNC is under way, there is a way on after which a packet that is sent has reached the remote |
| TransportLifecycle.MainGetsAll | core/adb/transport.cpp:246-299 | For every run, with its actions: what the main loop has read and what waits for it is the online SYNC, every packet from the remote and the offline SYNC, in the order they were written |
| TransportLifecycle.InputGetsAll | core/adb/adb.cpp:404-413 | For every run, with its actions: the input thread is sent every SYNC that the main loop reads and all packets it and the closing sockets send, in order |
| TransportLifecycle.ShutdownArrives | core/adb/transport.cpp:246-299 | Once the output thread has posted its offline SYNC, and until the input thread stops, that SYNC is on its way through the main loop or back to the thread |
| TransportLifecycle.ShutdownEnds | core/adb/transport.cpp:246-350 | From every state of every run in which the output thread has posted its offline SYNC there is a way on, without a failure, on which a relaying input thread closes the sockets and at whose end the transport is closed and removed |
| TransportLifecycle.SocketsClosedFirst | core/adb/transport.cpp:342-349 | For every run, with its actions: the input thread kicks and releases the transport only after it has closed the sockets |
| FdIo.ReadFdExactly | core/adb/adb_io.cpp:46-73 | However the bytes arrive, exactly the number asked for is read or the stream was too short |
| PacketCodec.SumBytes | core/adb/transport.cpp:1077-1094 | The summing loop computes the checksum of the data modulo 2^32 |
| PacketCodec.Seal | core/adb/transport.cpp:203-231 | What send_packet emits passes the checks of the reading side |
| PacketCodec.InvertedBits | core/adb/transport.cpp:209 | The magic has every one of the 32 bits of the command the other way |
| PacketCodec.ChecksumAppend | core/adb/transport.cpp:211-217 | The checksum of data in two parts is the sum of theirs modulo 2^32 |
| PacketCodec.ChecksumOne | core/adb/transport.cpp:211-217 | The checksum of one byte is that byte, and of nothing 0 |
| PacketCodec.RemoteRead | core/adb/transport_local.cpp:49-72 | A packet is read from any fragmentation exactly when the joined bytes decode |
| PacketCodec.DecodeEncode | core/adb/transport_local.cpp:74-84 | A packet that was sealed is accepted unchanged, and reading stops right behind it |
| PacketCodec.EncodeDecode | core/adb/transport.cpp:1062-1075 | Whatever is accepted is the encoding of a sealed packet |
| PacketCodec.HeaderLayout | core/adb/adb.h:49-56 | Command, arguments, length, checksum and magic stand in this order before the data |
| PacketCodec.CommandsSpelled | core/adb/adb.h:28-34 | The commands on the wire are the letters of their names, first letter first |
| PacketCodec.FifoOfPackets | core/adb/transport_local.cpp:49-84 | Any sequence of packets comes out as it went in |
| PacketCodec.ToWireInjective | core/adb/adb.h:26-134 | Different stream packets have different encodings |
| StreamWire.QueuesOnWire | core/adb/transport_local.cpp:49-84 | In every run with at most 2^32 sockets a side, opened to names that fit a packet, all packets in flight fit the wire, and their bytes are read as exactly them, in order |
| StreamWire.DeliveredOverWire | core/adb/transport_local.cpp:49-84 | In-order delivery down to the bytes: written, queued, and the stream's payload in the bytes on the wire make up what the sender read |
| LinkedLists.List.Enqueue | core/adb/sockets.cpp:78-85 | The four assignments put a record at the end of the circle |
| LinkedLists.List.Remove | core/adb/fdevent.cpp:480-486 | The four assignments take a record out from anywhere; the ids left are those without its own |
| LinkedLists.List.RemoveSocket | core/adb/sockets.cpp:103-114 | The same for a record that may be on no list, which is left alone |
| LinkedLists.List.Dequeue | core/adb/fdevent.cpp:488-501 | The first record is taken off, or the list was empty |
| LinkedLists.List.RunDisconnects | core/adb/transport.cpp:83-93 | The walk visits every node of the list once and in order, although each callback, of a remote socket or of a listener, unlinks its own; none is left |
| FdEvent.EventLoop.Install | core/adb/fdevent.cpp:591-607 | A record is entered for its descriptor, active and without interest or events; the table grows to hold it |
| FdEvent.EventLoop.Remove | core/adb/fdevent.cpp:609-623 | A record leaves table, sets and pending list; "out of sync" cannot happen; the descriptor is closed unless kept |
| FdEvent.EventLoop.SetInterest | core/adb/fdevent.cpp:626-650 | The sets follow the new interest; if it differs from the old, each pending event stays exactly if it is not in the new one; the pending list can only shrink |
| FdEvent.EventLoop.AddInterest | core/adb/fdevent.cpp:652-656 | Each kind of interest is there exactly if it was or is added |
| FdEvent.EventLoop.DelInterest | core/adb/fdevent.cpp:658-662 | Each kind of interest is there exactly if it was and is not taken away |
| FdEvent.EventLoop.FdCheck | core/adb/fdevent.cpp:300-316 | Exactly the registered descriptors that are bad, and their number |
| FdEvent.EventLoop.Scan | core/adb/fdevent.cpp:393-418 | The scan that stops after n reports gives each record a read, write or error event exactly if its descriptor is in that set or it had one, as a scan of all descriptors would, and never meets a missing record |
| FdEvent.EventLoop.Process | core/adb/fdevent.cpp:360-419 | For every answer of select, each record has afterwards exactly the events it had and those in the three sets returned, or a faked read if its descriptor is bad; all representations stay in step |
| FdEvent.ScannedBits | core/adb/fdevent.cpp:393-418 | After a scan of all descriptors, each active record has a read, write or error event if and only if it had it or its descriptor is in that set, and every other is as it was |
| FdEvent.ProcessedBits | core/adb/fdevent.cpp:360-419 | Read, write and error event of every record, each if and only if it was there or select() returned its descriptor in that set, or for a read faked it |
| FdEvent.ScannedList | core/adb/fdevent.cpp:470-478 | Newly ready records join the pending list at its end, in the order of their descriptors |
| FdEvent.EventLoop.TakePending | core/adb/fdevent.cpp:488-511 | The first pending record with its events, which are never empty |
| FdEvent.EventLoop.RunCallback | core/adb/fdevent.cpp:503-511 | Any sequence of legal calls a callback makes keeps the loop consistent, can only shorten the pending list, and leaves the pending records it does not name as they were |
| FdEvent.EventLoop.Dispatch | core/adb/fdevent.cpp:681-695 | Whatever the callbacks do and remember, dispatching ends with an empty list and calls back only records that were pending, in their order, each with events; a record that no callback touches is called with exactly the events it had |
| FdEvent.NoNewRead | core/adb/fdevent.cpp:360-419 | A record that does not want reads gets one to dispatch if and only if it had one, or its bad descriptor has one faked |
| FdEvent.SetKeepsUnwanted | core/adb/fdevent.cpp:626-650 | After fdevent_set no unwanted event is pending if and only if none was before; if the interest changes, exactly the unwanted ones are |
| FdEvent.SetBits | core/adb/fdevent.cpp:626-650 | The interest and each pending event of a record after fdevent_set, bit by bit |
| FdEvent.UnwantedReadStays | core/adb/fdevent.cpp:626-662 | Any record, installed, interested in both, reported ready for both and then interested in writing only, is left pending with READ alone |
| BipBuffer.Bip.constructor | core/adb/sysdeps_win32.cpp:889-904 | A new buffer is empty, writable and not readable |
| BipBuffer.Bip.Close | core/adb/sysdeps_win32.cpp:906-917 | Closing wakes whoever waits and keeps the contents |
| BipBuffer.Bip.Write | core/adb/sysdeps_win32.cpp:928-1015 | A write appends as much as fits to the contents, waits only when full, and leaves contents, flag and both events as the shared state says |
| BipBuffer.Bip.Read | core/adb/sysdeps_win32.cpp:1017-1108 | A read takes as much as is asked and there from the front, waits only when empty, resets an emptied buffer, and leaves the shared state accordingly |
| BipBuffer.Bip.NeverBothWait | core/adb/sysdeps_win32.cpp:813-838 | Reader and writer never wait together and neither waits on a signalled event |
| BipBuffer.Drive | core/adb/sysdeps_win32.cpp:889-1108 | A buffer driven through any sequence of calls has accepted, returned and kept what a FIFO would; bytes accepted are bytes returned followed by bytes held |
| BipThreads.Conserved | core/adb/sysdeps_win32.cpp:928-1108 | Over all interleavings of a reader, a writer and a closer that wait and are woken, bytes accepted are bytes returned followed by bytes held |
| BipThreads.NoLostWakeup | core/adb/sysdeps_win32.cpp:906-1050 | A reader that cannot go on finds the buffer empty and a writer finds it full, no close is slept through, and the two never both wait |
| BipThreads.RunHasTrace | core/adb/sysdeps_win32.cpp:906-1108 | Every run is made by actions, so what is stated for every run with its actions holds of every run |
| BipThreads.FailsExactly | core/adb/sysdeps_win32.cpp:1032-1050 | For every run, with its actions: a read that fails has once found the buffer empty, what is in the buffer is exactly what was written since, and there is any if and only if a write went through since |
| BipThreads.FailsWithBytes | core/adb/sysdeps_win32.cpp:1042-1050 | A run in which a read fails with a byte in the buffer |
| Hex.UnhexHexed | core/adb/sockets.cpp:610-638 | Numbers printed in hexadecimal are read back |
| Hex.UnhexCut | core/cpio/mkbootfs.c:104-122 | Of a number with more digits than are printed, its value modulo their range is read back |
| SmartSocket.UnhexLoop | core/adb/sockets.cpp:610-638 | The loop computes the number or reports a digit that is none |
| SmartSocket.Framer.Enqueue | core/adb/sockets.cpp:688-733 | A fragment joins what was received; too much fails |
| SmartSocket.Framer.Feed | core/adb/sockets.cpp:688-733 | Fragments are taken until the joined text is decided, and no sooner |
| SmartSocket.OneDispatch | core/adb/sockets.cpp:699-733 | Any fragmentation of a request of 1 to 1024 characters is dispatched exactly once, on its last fragment |
| SmartSocket.DecideExactly | core/adb/sockets.cpp:706-733 | For all bytes: a service is dispatched if and only if they carry it behind its length; the request fails if and only if its length is there and no bytes that follow can make it carry one |
| SmartSocket.SkipHostSerial | core/adb/sockets.cpp:658-684 | The scan finds the end of the serial by the rules for prefixes and ports |
| SmartSocket.SerialRecovered | core/adb/sockets.cpp:658-684 | The serial is found if and only if it is addressable: colon-free and not a bare prefix, host and port, or prefix and rest, with a command that does not look like a port |
| SmartSocket.UsbIsNotAddressable | core/adb/sockets.cpp:640-656 | A device whose serial is "usb" cannot be addressed |
| SmartSocket.ParseFormat | core/adb/commandline.cpp:435-447 | What the client formats is parsed back, for a given serial if and only if it is addressable |
| SyncProtocol.SendPieces | core/adb/file_sync_client.cpp:227-278 | A file goes out as one data frame per piece read before the end or an error |
| SyncProtocol.ReadItem | core/adb/file_sync_service.cpp:214-235 | The next frame is taken whole from any fragmentation |
| SyncProtocol.HandleSendFile | core/adb/file_sync_service.cpp:176-268 | The device's receive loop over fragments computes what the joined stream means |
| SyncProtocol.PushStored | core/adb/file_sync_service.cpp:214-261 | However a file is cut, the pieces before the first failing write are stored in order, one verdict is given, and the stream is read exactly through DONE |
| SyncProtocol.PushAnswers | core/adb/file_sync_service.cpp:182-261 | A push is answered exactly once if and only if directories could be made and the owner set; OKAY is sent if and only if the file was opened and all writes succeeded, and then the file is whole |
| SyncProtocol.PushCut | core/adb/file_sync_service.cpp:214-235 | A push cut off anywhere is never answered with OKAY and ends the service |
| SyncProtocol.PushBroken | core/adb/file_sync_service.cpp:219-233 | An unexpected or oversize frame anywhere in a push, whatever became of the writes before it, is answered with a failure and ends the service |
| SyncProtocol.PushDelivers | core/adb/file_sync_client.cpp:337-401 | The device stores what was read before a local error, and is told it is done either way |
| SyncProtocol.WholeFileRead | core/adb/file_sync_client.cpp:248-272 | What is read is a prefix of the file, and the whole if and only if nothing is left to read behind the first error |
| SyncProtocol.SyncRecv | core/adb/file_sync_client.cpp:422-534 | The client's receive loop over fragments computes what the joined stream means, and returns the status of that |
| SyncProtocol.StatusExactly | core/adb/file_sync_client.cpp:469-534 | The status is 0 if and only if the data are followed by a header of another kind, with the text of a failure complete; the file is there if and only if that header is DONE |
| SyncProtocol.RefusedWithStatusZero | core/adb/file_sync_client.cpp:517-534 | A failure from the device gives status 0 and no file |
| SyncProtocol.DoRecv | core/adb/file_sync_service.cpp:374-412 | The device sends the pieces and DONE, or a failure in place of DONE |
| SyncProtocol.PullDelivers | core/adb/file_sync_client.cpp:469-514 | A pulled file arrives whole whatever pieces it was read in, and the client stops at the end of the transfer |
| SyncProtocol.PullCut | core/adb/file_sync_client.cpp:478-503 | A transfer cut off anywhere is never taken for a whole file |
| SyncProtocol.PullFails | core/adb/file_sync_client.cpp:517-534 | After a failure no file is left, and the client is at the end of the message if and only if its text is within 256 |
| SyncInfo.StatRoundTrip | core/adb/file_sync_service.cpp:80-98 | What the device says of a file is what the client reads |
| SyncInfo.SyncLs | core/adb/file_sync_client.cpp:94-131 | The client's loop over fragments reads the listing that the joined stream holds |
| SyncInfo.ListRoundTrip | core/adb/file_sync_service.cpp:100-152 | A listing arrives as it was sent, without the names that are too long |
| SyncInfo.InfoLayout | core/adb/file_sync_service.h:45-57 | The order of the numbers in the answers to STAT and LIST |
| SyncSession.ReadCommand | core/adb/file_sync_service.cpp:425-440 | A request is read whole from any fragmentation, or it is too long or cut off |
| SyncSession.ServeCommand | core/adb/file_sync_service.cpp:425-462 | One turn of the service loop has the effect of the request, whatever becomes of the file |
| SyncSession.FileSyncService | core/adb/file_sync_service.cpp:414-469 | The service loop over any fragmentation serves the joined stream |
| SyncSession.PathRecovered | core/adb/file_sync_service.cpp:331-337 | The path is recovered from the name with the mode behind it, commas of its own included |
| SyncSession.SessionServed | core/adb/file_sync_service.cpp:414-469 | For every sequence of pushes, pulls, stats and listings, and whatever happens when files are opened and written: the device ends with the files they amount to and sends their answers in order |
| SyncSession.AnswersRead | core/adb/file_sync_client.cpp:376-394 | Whatever becomes of the requests, what the client reads of their answers is what it is told, up to the first refusal |
| SyncSession.SessionFaithful | core/adb/file_sync_client.cpp:673-800 | For every session, whatever becomes of its requests: sent, served and read one by one up to the first push refused, they give the client what it is told of each and the device the files that those sent amount to |
| SyncSession.ToldExactly | core/adb/file_sync_service.cpp:182-212 | What the client is told of a request is what became of it, unless it is a push that is stored although its directories could not be made or its owner not set |
| SyncSession.OwnerNotSet | core/adb/file_sync_service.cpp:200-212 | A push whose owner cannot be set is stored and reported as refused, with an OKAY that is not read |
| SyncSession.TailStays | core/adb/file_sync_service.cpp:325-347 | A send under a name without a comma leaves what was sent in the file if and only if the file was not longer before, and else its old end too |
| SyncSession.CutOff | core/adb/file_sync_service.cpp:214-267 | A push cut off anywhere leaves no file under its path, ends the service, and its client is not told of a success |
| SyncSession.BrokenOff | core/adb/file_sync_service.cpp:219-267 | A push with an unexpected or oversize frame leaves no file under its path, ends the service and is refused |
| SyncSession.IdsSpelled | core/adb/file_sync_service.h:25-37 | The numbers of requests and answers are the letters of their names, first letter first |
| SyncSession.PushAccepted | core/adb/file_sync_client.cpp:347-359 | A push is accepted if and only if path, comma and mode together are within 1024; otherwise the service ends |
| SyncSession.LongPathRefused | core/adb/file_sync_client.cpp:347-359 | A path of 1024, which the client accepts, ends the service |
| Cpio.Writer.Pad | core/cpio/mkbootfs.c:96-99 | Zeros up to the next multiple, counted |
| Cpio.Writer.Eject | core/cpio/mkbootfs.c:89-137 | One entry appended as the format has it; the byte count equals the bytes written |
| Cpio.Writer.EjectTrailer | core/cpio/mkbootfs.c:139-149 | The trailer entry, then zeros to a multiple of 256 |
| Cpio.Aligned | core/cpio/mkbootfs.c:89-137 | Every header and every block of data starts at a multiple of 4 |
| Cpio.RoundTrip | core/cpio/mkbootfs.c:89-149 | A reader of the format recovers exactly the entries if and only if none is named like the trailer, otherwise those before it; the length is a multiple of 256 |
| Cpio.ArchiveNumbered | core/cpio/mkbootfs.c:89-149 | All thirteen numbers of every header, the trailer included: inodes count up from 300000, mode, no owner, one link, no time, size, no devices, length of the name, no checksum |
| BootFs.SortUnique | core/cpio/mkbootfs.c:153-203 | There is one sorted order of names, so any sort gives it |
| BootFs.OrderIndependent | core/cpio/mkbootfs.c:157-228 | The entries do not depend on the order in which directories list their names, at any level |
| BootFs.EntriesExact | core/cpio/mkbootfs.c:157-271 | A tree can be archived if and only if no special file is reached through kept names, and its entries are exactly, for each node reached that way, its path and mode with all the data of a file, the first 1024 bytes of a link, nothing of a directory |
| BootFs.FileArchived | core/cpio/mkbootfs.c:230-271 | What is archived of each file, link and directory reached |
| BootFs.NamesKept | core/cpio/mkbootfs.c:179-202 | A name is archived if and only if it does not begin with a dot and is not "root" |
| BootFs.LessMeans | core/cpio/mkbootfs.c:153-155 | One name comes before another if and only if they agree up to a place where the first ends or has the smaller byte |
| BootFs.PathMeans | core/cpio/mkbootfs.c:206-218 | The path of an entry is the names on the way to it with slashes between them |
| BootFsWalk.Walker.Archive | core/cpio/mkbootfs.c:230-271 | The entries of the file named by the one buffer and of all below it, as EntriesExact lists them, are archived under the name in the other, in order, and both buffers are restored; it ends early exactly if there is a special file among them |
| BootFsWalk.Walker.ArchiveChild | core/cpio/mkbootfs.c:207-224 | One turn of the loop: a name is put behind both paths, archived and cut off again |
| BootFsWalk.Walker.ArchiveDir | core/cpio/mkbootfs.c:157-228 | The children are archived in sorted order, directories before what they hold |
| BootFsWalk.Mkbootfs | core/cpio/mkbootfs.c:273-282 | The image is the archive of the tree's entries, which EntriesExact lists, or the tree cannot be archived |
| BootFsWalk.SameImage | core/cpio/mkbootfs.c:157-271 | Trees that differ in listing order give the same image, and it reads back |
| BootFsWalk.FilesComeBack | core/cpio/mkbootfs.c:157-282 | A reader of the image finds every file with its mode and all of its data, and every link and directory, under its path |
| SparseDownload.Usb.SparseWrite | core/fastboot/protocol.c:223-271 | For any chunk, bytes sent and held are those before followed by the chunk, only whole blocks go out, and neither internal error can happen |
| SparseDownload.Usb.Flush | core/fastboot/protocol.c:273-286 | What was held goes out as one last transfer |
| SparseDownload.Usb.DownloadSparse | core/fastboot/protocol.c:288-314 | A download that succeeds delivers what the buffer held and then exactly the chunks, in whole blocks but for the last transfer, and leaves the buffer empty |
| ActionQueue.Match | core/fastboot/engine.c:201-221 | A value matches if and only if it equals an alternative or begins with one that ends in a star |
| ActionQueue.OptionMeans | core/fastboot/engine.c:201-221 | An alternative that ends in a star behind some text matches what begins with that text; any other matches only itself |
| ActionQueue.RunPrefix | core/fastboot/engine.c:367-413 | A run executes all of the queue, or exactly up to the first action that leaves a status |
| ActionQueue.Gate | core/fastboot/engine.c:367-413 | An action is executed if and only if everything queued before it passed |
| ActionQueue.Engine.Ask | core/fastboot/engine.c:383-404 | A sparse download starts from an empty buffer and, if it succeeds, delivers exactly its image |
| ActionQueue.Engine.Judge | core/fastboot/engine.c:225-318 | An action that asks nothing leaves status 0, one that the device fails leaves the device's, and one it does not fail leaves -1 if it states a requirement not met and else 0; the product is saved |
| ActionQueue.VerdictMeans | core/fastboot/engine.c:225-318 | That status for every action, answer and product |
| ActionQueue.Engine.ExecuteQueue | core/fastboot/engine.c:367-413 | With status 0 all of the queue was executed and everything asked was answered with success; any other status is that of the action it stopped at, and all before it passed; every answer is the device's; the device has received whole every sparse image before the stop and nothing of its own after |
| Requirements.Strip | core/fastboot/fastboot.cpp:469-479 | The two loops remove white space at both ends |
| Requirements.StripTrims | core/fastboot/fastboot.cpp:469-479 | Nothing but white space is removed and none is left at the ends |
| Requirements.SplitOptions | core/fastboot/fastboot.cpp:510-515 | The text is cut at its first 31 bars |
| Requirements.OptionsOfBarred | core/fastboot/fastboot.cpp:510-515 | Alternatives joined by bars are recovered up to 32; from the 32nd on they stay one text |
| Requirements.SetupLine | core/fastboot/fastboot.cpp:482-544 | A line is ignored, broken or a requirement; the lemmas beside this say which, and of what |
| Requirements.ParseWritten | core/fastboot/fastboot.cpp:482-544 | Every requirement is read back from the line that states it |
| Requirements.ParsePlain | core/fastboot/fastboot.cpp:490-506 | A line that begins with none of the three words is a requirement for every product |
| Requirements.ParseBoard | core/fastboot/fastboot.cpp:524-526 | A requirement of the board is one of the product |
| Requirements.NothingRequired | core/fastboot/fastboot.cpp:496-507 | A line without an equals sign requires nothing; one for a product without a blank behind it is broken |
| Update.SetupRequirements | core/fastboot/fastboot.cpp:546-562 | The scan over the text queues the requirements of its lines in order, or finds a broken one |
| Update.LinesStop | core/fastboot/fastboot.cpp:546-562 | The lines looked at make up the text from its start |
| Update.LinesCover | core/fastboot/fastboot.cpp:546-562 | They make up all of it if and only if it ends in a newline or is empty; what is left has no newline |
| Update.TextQueued | core/fastboot/fastboot.cpp:546-562 | A text stating requirements gets exactly those queued, and a last line without its newline is not looked at |
| Update.UpdateGated | core/fastboot/fastboot.cpp:739-785 | The images of an update are reached if and only if the device answered the questions and meets every requirement for its product |
| Update.NothingChangedUncleared | core/fastboot/fastboot.cpp:739-785 | No erase, flash, download or signature is sent unless the device is cleared |
| Update.UpdateQueued | core/fastboot/fastboot.cpp:739-785 | The queue of every update can be executed, and its sparse downloads are the images of the package in order |
| Update.UpdateDoes | core/fastboot/fastboot.cpp:739-785 | What the queue has a bootloader do, in order: tell the variables shown, the product and the variable of each requirement, then for each image of the package take its signature if it has one, erase its partition where that is due, and write to its partition each part that was downloaded for it |
| Update.DoUpdate | core/fastboot/fastboot.cpp:739-785 | From the text of the requirements to the device: nothing is sent if a line is broken; with status 0 every erase, flash, signature and download was answered with success and all images have been delivered whole and in order to a cleared device; with another status some action failed and all before it passed; no image is delivered to a device that is not cleared |

## Left out

- Socket ids are unbounded: that a 32-bit id could be reused after 2^32 - 1 sockets is not modelled.
- SocketTable.Adb.OnReadable: pairs of two local sockets, as for a host service in the same process, and the forced end of file of subprocess services are not modelled; smart peers are in OnSmartReadable.
- SocketTable.Adb.OnSmartReadable: what the smart socket makes of the request is a parameter; how it reads it is in SmartSocket. The OKAY and FAIL texts for the client are not modelled.
- SocketTable.Adb.RunTransportDisconnects: the list has the nodes of remote sockets; a list with those of listeners too is in LinkedLists.List.RunDisconnects, without what the callbacks do to the tables.
- The socket tables are maps from handles to records in one field, not heap objects with pointers; aliasing beyond the handles is not captured, except for the links of the lists in LinkedLists.
- StreamTraces.GracefulCloseExact: holds for runs in which a READ meets a closing socket at any time, which are more than the program has; that it was pending when the closing began is stated for the failing run only.
- StreamLink.Join: a client's socket is connected in one turn, so events between its creation and its OPEN are not interleaved; each process has one transport.
- JDWP and device trackers, which send without waiting for OKAY.
- Connection set-up (CNXN, AUTH), online and offline notifications, and authentication.
- An explicit adb disconnect, which drops a reference of its own.
- FDE_ERROR and FDE_TIMEOUT handling, the epoll branch and the subprocess end-of-file hook of the event loop.
- TransportLifecycle.KickAndCloseOnce: covers shutdown driven by the two threads and the main loop.
- BipBuffer.Bip.Write: a call that would block returns that it waits; the wait and what follows it are in BipThreads, on the shared state.
- BipBuffer.Bip.Read: as Write.
- BipThreads.Conserved: one reader, one writer and one closer; each critical section, wait and unlocked statement is one step.
- Symbolic links, the pipelined comparison of directories, permission bits and time stamps of files.
- SyncSession.SessionFaithful: every pulled file can be read to its end; a read that fails in the middle is in SyncProtocol.DoRecv.
- Failures of the connection itself while an answer is being sent, and of writing the pulled file at the client.
- SyncProtocol.SyncRecv: a length with its top bit set, which the client reads as negative, counts as too long.
- SyncInfo.SyncLs: the same for the length of a name.
- SyncSession.ServeCommand: a mode that overflows strtoul, which the device treats like no mode, and paths that are not regular files.
- mkbootfs: the owner and mode tables (a node carries its final mode), files that cannot be read, several directories in one image, and byte counts beyond 2 GiB.
- BootFsWalk.Walker.Archive: the paths below a directory fit the buffers, which the program does not check.
- BootFsWalk.Mkbootfs: the paths of the tree fit the two buffers of 8192 bytes, which the program does not check; what it does beyond them is undefined.
- fastboot: status messages of the bootloader, command lines over 64 characters, USB transfers split by the host, and how images are cut into sparse files.
- Requirements.SetupLine: works on values; that the separators are overwritten in the text buffer is not captured.
- Update.UpdateGated: loading images, which may query the device before the queue runs, is not part of the model.
- Update.DoUpdate: the package has been opened and its images loaded; the end of the program on a broken line is the result false.
