# Verification of ventanium's core

A Dafny 4.11 model of the parts of ventanium that are hardest to get right, with proofs. `dafny verify dfyconfig.toml`
checks all of it.

## What is modelled

**The multi-threaded stream server** (`StreamServer*.dfy`, `Socket.dfy`). One main thread turns listener events into queue
entries, any number of workers take them, lock the socket, run the callbacks, re-arm or close it, and hand dead sockets to a
release list; two latches drain the server at the end. `StreamServer` is a labelled transition system: one step is a
critical section, a call that takes one socket's lock, a callback or a system call, and `Exec` interleaves the steps of all
threads in any order. `StreamServerProof` defines a ledger: every place that refers to a socket holds a share (references,
lock flags, the token of a pending or registered socket, what is still owed to its history), and the invariant says that the
shares add up to what the socket's record says. `StreamServerSteps` and `StreamServerMain` prove that each step keeps it,
`StreamServerTheorems` and `StreamServerBounds` draw the conclusions. `StreamServerRuns` and `StreamServerOverflow` are the
runs that show what does not hold: two that lose a socket, and one that overflows a reference count. `Socket` has the methods
of the socket, proved to change the record as the transition system says, and the proof that they are called only where
their assertions hold.

**The NM protocol** (`Bytes.dfy`, `Buffer.dfy`, `Nm*.dfy`). The growing buffer, the encoder, the resumable parser, the
connection with its two buffers, and the end-to-end property of a sender and a receiver with arbitrary partial writes and
reads between them. The parser and the buffer are classes that update their fields and read bytes where they lie; `Run`,
`Emit` and `Feed` are the functions they are proved against.

**WebSocket framing** (`Ws*.dfy`), sections 5.2 to 5.5 of RFC 6455: header codec, masking in place, fragmentation with
interleaved control frames, in arbitrary pieces; and what the status of the parser makes the server do (`WsStatus.dfy`).

**The hash tables** (`Hash.dfy`, `HashTable.dfy`). Chains of heap nodes edited through pointers; `vtm_map` and the macros of
`smap.h` refine one abstract finite map, also when keys are compared without regard to case.

**Transforms and a monitor**: chunked bodies decoded in place (`Chunked.dfy`, section 4.1 of RFC 7230), base64
(`Base64.dfy`, section 4 of RFC 4648), percent-encoding (`Url.dfy`, sections 2.1 and 2.3 of RFC 3986), SQL parameters
(`Sql.dfy`), the linked queue (`SQueue.dfy`) and the bounded queue of the datagram server (`DgramServer.dfy`,
`DgramMonitor.dfy`, and its stalls in `DgramStalls.dfy`).

## What the proofs say about the code

Where a property is not true of the code as it stands, the model keeps the code, a lemma shows a case, and another lemma says
exactly when the property holds.

- A reference count is a byte, and with 255 or more workers it can overflow, so that the assertion in `vtm_socket_ref` ends
  the process; with fewer no assertion ever fails. A run for every such number of workers and the exact condition are in
  `StreamServerOverflow.FailsIff` and `StreamServerBounds.NoFailure`. The number of workers is not checked.
- A socket that its own `sock_connected` callback leaves closed, in error or hung up is neither disconnected nor freed
  (`StreamServerRuns.LostInCallback`); nor is a socket freed whose ACCEPTED event is still queued when the drain clears the
  queue (`StreamServerRuns.LostInDrain`). `StreamServerBounds.ShutDown` says that a socket is lost if and only if one of the
  two happened to it.
- A stopped datagram server can stall in exactly two ways: the receiving thread waits for room that no worker will make, or a
  worker goes to sleep after the last signal (`DgramServer.StallsIff`). Both can happen for every number of workers and every
  limit (`DgramStalls.CanBeAbandoned`, `DgramStalls.CanMissTheEnd`).
- The counter of the datagram server is not reset between two runs on one object, so it is the length of the queue if and only
  if the last run left the queue empty (`DgramServer.CountIsLength`). After one that ended with a full queue, which is possible
  for every limit, the next run never handles a datagram (`DgramServer.Starves`, `DgramStalls.CanStarveTheNext`).
- A message that cannot be encoded leaves its first bytes in the send buffer (`NmStream.SendKeepsIdle`,
  `NmStream.AlwaysIdle`), and the next message may then arrive as one that was never sent (`NmStream.Garbled`).
- A field with an empty name is written but never read back (`NmRoundTrip.RoundTrip`, `NmRoundTrip.MessageParses`).
- A refused byte is processed, so the NM parser is split independent if and only if the first part was not refused
  (`NmParser.SplitIndependence`).
- The WebSocket parser tests bit 31 of a 64-bit length and not the highest bit, as the comment beside it has it
  (`WsReassembly.HeaderParses`).
- When no byte of the next frame has arrived the WebSocket parser answers with the status for invalid input and not with the
  one that asks for more: while a valid sequence of frames arrives, exactly where a frame ends (`WsStatus.CutStatus`). The
  server then closes the socket and the client returns an error, so the server hangs up if and only if a read brings it to the
  end of a frame with nothing left to hand out, in particular after every message that is not followed at once by the next
  frame (`WsStatus.ClosesIff`; the smallest case is `WsStatus.ClosedAfterMessage`).
- A WebSocket message that outgrows its buffer ends in an error only if the buffer has reached its maximal size. Below that
  the buffer is doubled once, and a fragment that is still too large is written behind its end (`WsMessages.NoRoom`,
  `WsMessages.Reassembled`).
- The limit on the size of a chunked body counts from the start of the message, with its headers and the sizes of the chunks
  (`Chunked.Exchange`).
- The SQL rewriting loses a query exactly if it has a parameter and a loose mark, one outside quotes that no name character
  follows: `:a ?` and `? :a` have the same result (`Sql.Determined`). Success is reported also when the
  buffer has overflowed (`Sql.ExtractQueryParams`).
- The code returned for a message without fields is never set (`NmProtocol.ReturnCode`).
- `vtm_map_new` does not end for a capacity above 2^63 (`HashTable.BucketLoopEnds`), and `vtm_base64_decode` reads on behind
  a text of four or more characters whose length is not a multiple of four (`Base64.DecodeLoopEnds`).

## Assumptions

The environment of the stream server reports an armed socket once, with one event (one-shot arming), and a socket waits for
one direction at a time. Callbacks may leave their own socket closed, in error or hung up. Memory does not run out. Socket
writes take any prefix of what they are given, and reads deliver any prefix of what is there. Words are those of a 64-bit
host of either byte order; characters are classified as in the C locale.

## Model

| member | source | states |
|---|---|---|
| StreamServerTheorems.ExecInv | src/vtm/net/socket_stream_server.c:452-554 | in every state that any schedule reaches, references, lock flags, tokens and history of every socket add up |
| StreamServerTheorems.NoFault | src/vtm/net/socket_stream_server.c:858-866 | no thread touches a freed socket and no assertion of the server, the sockets or the latches fails, except perhaps the one on the range of a count, over all interleavings |
| StreamServerBounds.NoFailure | src/vtm/net/socket.c:361-367 | with 1 to 254 workers that one does not fail either |
| StreamServerOverflow.FailsIff | src/vtm/net/socket.c:361-367 | some schedule lets an assertion fail if and only if there are 255 or more workers |
| StreamServerTheorems.RefcountExact | src/vtm/net/socket_stream_server.c:623-649 | the reference count is the number of queue entries, workers holding an event, release-list entries and main-thread references; a freed socket has none |
| StreamServerTheorems.FreedIsGone | src/vtm/net/socket_stream_server.c:462-473 | a freed socket is not armed, registered, reported, queued, waiting for release or held by a worker |
| StreamServerTheorems.ReleasedAreReferenced | src/vtm/net/socket.c:383-394 | a socket on the release list is referenced, so marking it never frees it on the spot |
| StreamServerTheorems.SingleToken | src/vtm/net/socket_stream_server.c:452-554 | a socket is armed or has one unhandled event in the batch, the queue or a thread's hands, or neither, never two |
| StreamServerBounds.RefcountBound | src/vtm/net/socket.c:361-367 | in every reachable state a socket has at most one reference more than there are workers |
| StreamServerTheorems.Exclusive | src/vtm/net/socket_stream_server.c:858-912 | at most one worker is in the READ section of a socket and at most one in its WRITE section; CLOSED and ERROR handlers exclude both |
| StreamServerTheorems.FlagsAreHeld | src/vtm/net/socket_stream_server.c:1094-1116 | a lock flag is set if and only if some worker is in the section it guards |
| StreamServerTheorems.AtMostOnce | src/vtm/net/socket_stream_server.c:914-1047 | on every path a socket is connected, disconnected, released and freed at most once, and disconnected only if connected |
| StreamServerTheorems.DrainIsQuiet | src/vtm/net/socket_stream_server.c:588-621 | between the prepare latch reaching zero and the release of the run latch every worker waits |
| StreamServerTheorems.DrainNeverRequeues | src/vtm/net/socket_stream_server.c:818-829 | after the run latch every event is a CLOSED event, its lock attempt succeeds and it is not queued again |
| StreamServerTheorems.DrainComplete | src/vtm/net/socket_stream_server.c:579-621 | once all workers have returned, queue and connection map are empty and each socket registered at the start of the drain was disconnected exactly once |
| StreamServerBounds.ShutDown | src/vtm/net/socket_stream_server.c:946-1047 | after shutdown a connected socket was not disconnected if and only if it died in its connected callback, and an accepted one was not freed if and only if that happened or the drain cleared its ACCEPTED event |
| StreamServerRuns.LostInCallback | src/vtm/net/socket_stream_server.c:965-971 | a complete run in which a socket closed in its connected callback is never disconnected and never freed |
| StreamServerRuns.LostInDrain | src/vtm/net/socket_stream_server.c:595-598 | a complete run in which the drain clears the ACCEPTED event of a socket, which is never freed |
| StreamServerProof.HandleKeeps | src/vtm/net/socket_stream_server.c:839-1047 | one step of an event handler fails no assertion and keeps the ledger of its socket, whatever the other threads hold |
| StreamServerSteps.WorkerKeeps | src/vtm/net/socket_stream_server.c:780-837 | every step of a worker keeps the invariant |
| StreamServerMain.MainKeeps | src/vtm/net/socket_stream_server.c:328-377 | every step of the main thread keeps the invariant |
| Socket.CallsAllowed | src/vtm/net/socket.c:361-381 | with 1 to 254 workers every step that takes or drops a reference meets the assertion of the method it calls |
| Socket.Sock.Ref | src/vtm/net/socket.c:361-367 | under the asserted condition, changes the socket as the transition system says |
| Socket.Sock.Unref | src/vtm/net/socket.c:369-381 | under the asserted condition, drops one reference and frees a marked socket with the last |
| Socket.Sock.EnableFreeOnUnref | src/vtm/net/socket.c:383-394 | marks the socket, and frees it at once only without references |
| Socket.Sock.TryLock | src/vtm/net/socket_stream_server.c:1094-1109 | takes all lock flags an event needs or leaves the socket as it was, and succeeds exactly when the transition system goes on |
| Socket.Sock.Unlock | src/vtm/net/socket_stream_server.c:1111-1116 | clears the flags of the event and no other |
| Buffer.Buf.NextSize | src/vtm/core/buffer.c:164-169 | the doubling loop ends even if the size wraps to zero; it fails exactly when the target is above 2^63, and otherwise finds the least sufficient power of two |
| Buffer.Buf.Grow | src/vtm/core/buffer.c:149-194 | growth keeps contents and cursor; an overflow is recorded, is sticky and changes nothing else |
| Buffer.Buf.Ensure | src/vtm/core/buffer.c:59-65 | exactly when room can be made |
| Buffer.Buf.PutO | src/vtm/core/buffer.c:104-124 | appends the bytes in the order of the buffer, or nothing once an error is recorded |
| Buffer.Buf.GetO | src/vtm/core/buffer.c:82-97 | takes the next bytes in the order asked for and keeps the contents |
| Buffer.Buf.MarkProcessed | src/vtm/core/buffer.c:77-80 | refuses a wrap of the cursor and nothing else: the cursor stays within the used bytes if and only if there are so many unread ones |
| Buffer.Buf.DiscardProcessed | src/vtm/core/buffer.c:67-75 | keeps exactly the unread bytes |
| Buffer.LargestCapacity | src/vtm/core/buffer.c:164-169 | 2^63 is a capacity |
| Buffer.CapacityGap | src/vtm/core/buffer.c:164-169 | between a capacity and its double there is no other |
| Bytes.ReorderedTwice | src/vtm/core/buffer.c:82-124 | put and then get with one foreign byte order gives the bytes back |
| Bytes.MemoryRoundTrip | src/vtm/core/buffer.c:82-124 | a word stored in the memory of a host and read back there is the same, for either byte order |
| NmProtocol.TypeTables | src/vtm/net/nm/nm_protocol.c:16-68 | the two type tables are inverse to each other and cover the same types |
| NmProtocol.PutField | src/vtm/net/nm/nm_protocol.c:104-171 | appends one field in the format, whatever the byte order of the host; an overflow is recorded only beyond 2^62 bytes |
| NmProtocol.MsgToBuf | src/vtm/net/nm/nm_protocol.c:70-182 | appends the encoding of the fields, whatever the byte order of the host, with the code of the encoding; only beyond 2^62 bytes may it record an overflow instead; success means that all of it was written |
| NmRoundTrip.EmitSucceeds | src/vtm/net/nm/nm_protocol.c:70-182 | encoding succeeds if and only if there are at most 65535 fields and each one can be written |
| NmParser.StepExtends | src/vtm/net/nm/nm_parser.c:38-229 | a round that does not ask for more bytes does not depend on what follows |
| NmParser.RunExtends | src/vtm/net/nm/nm_parser.c:38-229 | nor does a whole run |
| NmParser.RunResumes | src/vtm/net/nm/nm_parser.c:38-229 | a run that asked for more bytes, resumed with them, is one run on everything |
| NmParser.SplitIndependence | src/vtm/net/nm/nm_parser.c:38-229 | for every parser state, two runs leave the parser, position and status of one run on both parts, if and only if the first part was not refused |
| NmParser.MsgParser.RunOn | src/vtm/net/nm/nm_parser.c:38-229 | the state machine on the buffer ends where the function `Run` says, for hosts of either byte order |
| NmParser.MsgParser.GetMsg | src/vtm/net/nm/nm_parser.c:231-245 | hands out the message of a finished run, once |
| NmRoundTrip.MessageParses | src/vtm/net/nm/nm_parser.c:38-229 | exactly the bytes written are processed and exactly the fields stored, if and only if every field has a name |
| NmRoundTrip.MergeRebuilds | src/vtm/net/nm/nm_parser.c:200-219 | storing the entries of a dataset, in any order, rebuilds it |
| NmRoundTrip.MergeInto | src/vtm/net/nm/nm_parser.c:200-219 | storing them into another dataset gives the union, in which they win |
| NmRoundTrip.RoundTrip | src/vtm/net/nm/nm_protocol.c:70-196 | reading back a written dataset gives it as a map, whatever follows, if and only if no name is empty |
| NmRoundTrip.MsgFromBuf | src/vtm/net/nm/nm_protocol.c:184-196 | stores the fields in the caller's dataset as one run does, also those before an error, succeeds exactly if the run completes, and moves the cursor behind what was processed |
| NmRoundTrip.Exchange | src/vtm/net/nm/nm_protocol.c:70-196 | a message written on one host and read on another, whatever their byte orders, is added to the dataset there, if and only if it could be written and no name is empty; below 2^62 bytes writing has the code of the encoding |
| NmStream.Conservation | src/vtm/net/socket_connection.c:83-120 | bytes written plus unsent bytes are, in order, all bytes appended, after every sequence of sends and writes |
| NmStream.SendKeepsIdle | src/vtm/net/nm/nm_stream_connection.c:61-77 | a send keeps "not writing implies nothing unsent" if and only if the message could be encoded or a write was under way |
| NmStream.AlwaysIdle | src/vtm/net/socket_connection.c:83-120 | outside the write lock, not writing implies an empty send buffer throughout a run, if and only if every message that cannot be encoded is sent while a write is under way |
| NmStream.Garbled | src/vtm/net/nm/nm_stream_connection.c:61-77 | after a failed send, a good message arrives as one that was never sent |
| NmStream.PlaySound | src/vtm/net/nm/nm_stream_connection.c:61-155 | at every point of every run the receiver is where reading the current message from its first byte leads |
| NmStream.EndToEnd | src/vtm/net/nm/nm_stream_connection.c:61-155 | however writes and reads are split, the messages handed out are a prefix of those sent, none is refused, and they are all of them once all bytes arrived |
| NmConnection.Connection.WriteInternal | src/vtm/net/socket_connection.c:103-120 | moves the bytes the socket took from the send buffer to the wire and keeps the rest |
| NmConnection.Connection.WriteStart | src/vtm/net/socket_connection.c:83-90 | starts a write unless one is under way |
| NmConnection.Connection.Send | src/vtm/net/nm/nm_stream_connection.c:61-77 | appends the encoded message and starts a write, as the stream model says; the code tells a message that cannot be encoded, and a closed or failed socket, from success; the buffer overflows only beyond 2^62 bytes |
| NmConnection.Connection.Read | src/vtm/net/nm/nm_stream_connection.c:94-140 | however the reads are split, the outcome is that of one parser run on all bytes taken, also when more are asked for; before that, everything is taken that the reads offer, at least 1024 bytes each, up to the first that delivers nothing; an error means a failed socket or a buffer beyond its limit |
| NmConnection.Connection.Receive | src/vtm/net/nm/nm_stream_connection.c:94-155 | reading, and taking a complete message, is the event that feeds the receiver of the stream model, or leaves a receiver that goes on as one that was fed |
| NmConnection.AcceptSound | src/vtm/net/nm/nm_stream_connection.c:94-155 | in the place of that event it keeps the channel sound |
| NmConnection.Connection.GetMsg | src/vtm/net/nm/nm_stream_connection.c:147-155 | hands out the message and discards its bytes, none of the unread ones |
| WsFrame.MaskedTwice | src/vtm/net/http/ws_frame.c:76-89 | masking twice with one key is the identity |
| WsFrame.MaskPayload | src/vtm/net/http/ws_frame.c:76-89 | masks the payload in place and touches nothing else |
| WsFrame.Header | src/vtm/net/http/ws_frame.c:10-74 | a header has 2 to 14 bytes |
| WsFrame.WriteHeader | src/vtm/net/http/ws_frame.c:10-74 | appends the header with the shortest length form, or refuses a length with the highest bit set and appends nothing; an overflow is recorded exactly if the header does not fit |
| WsParser.RunExtends | src/vtm/net/http/ws_parser.c:56-341 | a run that does not wait is not affected by later bytes |
| WsParser.RunResumes | src/vtm/net/http/ws_parser.c:56-341 | a run that waits is resumed by the next one |
| WsParser.FrameParser.Unmask | src/vtm/net/http/ws_parser.c:232-254 | the payload is unmasked where it lies, and the bytes behind it stay |
| WsParser.FrameParser.MakeRoom | src/vtm/net/http/ws_parser.c:282-296 | the message buffer is doubled at most once for a frame |
| WsParser.FrameParser.RunOn | src/vtm/net/http/ws_parser.c:56-341 | the parser on the buffer ends where the function `Run` says |
| WsParser.FrameParser.TakeMsg | src/vtm/net/http/ws_parser.c:388-406 | a pending control message comes first and leaves the data message in progress alone |
| WsReassembly.HeaderParses | src/vtm/net/http/ws_parser.c:79-229 | reading a written header recovers flag, opcode, key and length, and refuses it if and only if the length needs 64 bits and bit 31 is set |
| WsReassembly.HeaderCanonical | src/vtm/net/http/ws_parser.c:79-229 | only the header that is written, with the shortest length form, is read as a given header |
| WsMessages.OneFrame | src/vtm/net/http/ws_parser.c:264-341 | one frame is collected or yields its message, and a control frame does not disturb the fragments collected |
| WsMessages.Reassembles | src/vtm/net/http/ws_parser.c:56-341 | a valid frame sequence within the capacity yields each data message as the joined unmasked fragments with the first fragment's type, and each control message once, in wire order |
| WsMessages.DrainSplits | src/vtm/net/http/ws_parser.c:56-341 | taking the messages of a part and then of the rest is taking them all at once, as long as the parser waits |
| WsMessages.Streaming | src/vtm/net/http/ws_parser.c:56-406 | however the bytes are split into pieces, the messages taken after any part of them are the first ones of the same, and all of them at the end, for a caller that goes on whenever the parser waits, also with the status for invalid input |
| WsStatus.CutStatus | src/vtm/net/http/ws_parser.c:79-83 | while a valid sequence arrives, the status after taking the messages is the one for invalid input if and only if the bytes so far end where a frame ends, and asks for more otherwise |
| WsStatus.ServedInOrder | src/vtm/net/http/ws_connection.c:63-87 | whatever the reads of the server deliver, it hands out the first messages that the frames carry, in order |
| WsStatus.ClosesIff | src/vtm/net/http/http_server.c:269-300 | the next read makes the server close the socket if and only if the bytes then end where a frame ends and all messages so far were handed out |
| WsStatus.ClosedAfterMessage | src/vtm/net/http/http_server.c:269-300 | the smallest case: after one frame with an empty message, which is handed out, an empty read closes the socket |
| WsMessages.NoRoom | src/vtm/net/http/ws_parser.c:282-301 | a fragment without room ends in an error in a buffer of maximal size, and in a write behind the buffer otherwise |
| WsMessages.Reassembled | src/vtm/net/http/ws_parser.c:56-341 | a valid frame sequence of any size yields the messages before the first frame without room, and ends in one of these two ways if and only if there is one |
| Hash.HashStr | src/vtm/core/hash.c:16-27 | the loop folds the characters into the hash |
| Hash.HashStrCase | src/vtm/core/hash.c:29-40 | the hash of the string in lower case |
| Hash.StrCaseCmp | src/vtm/core/string.c:100-110 | zero if and only if the strings are equal in lower case |
| Hash.HashCongruent | src/vtm/core/hash.c:16-76 | keys that compare equal hash equally, for every key type, also without regard to case |
| Hash.SameIsCanonical | src/vtm/core/string.c:100-110 | keys compare equal if and only if they have the same canonical form |
| HashTable.Table.constructor | src/vtm/core/smap.h:50-59 | an empty table with the given number of buckets |
| HashTable.BucketCount | src/vtm/core/map.c:65-67 | the loop finds the least power of two that is not below the capacity |
| HashTable.BucketLoopEnds | src/vtm/core/map.c:65-67 | the loop ends if and only if the capacity is at most 2^63 |
| HashTable.NewMap | src/vtm/core/map.c:50-77 | an empty table with that many buckets |
| HashTable.Table.Walk | src/vtm/core/map.c:374-384 | the first node of the chain with the key, and the one before it |
| HashTable.Table.Get | src/vtm/core/map.c:199-205 | the value of the key in the abstract map |
| HashTable.Table.PutFront | src/vtm/core/map.c:142-176 | updates the abstract map: the node of an equal key is replaced by a new one at its position, else the new one goes in front of its chain; no other chain changes, and chains stay disjoint, acyclic and sorted into their buckets |
| HashTable.Table.PutBack | src/vtm/core/smap.h:99-134 | the same, with a node of a new key behind the last one of its chain |
| HashTable.Table.Remove | src/vtm/core/smap.h:167-191 | removes the key and says whether it was there |
| HashTable.Table.Size | src/vtm/core/map.c:94-106 | the cardinality of the abstract map |
| HashTable.Table.EntrySet | src/vtm/core/map.c:292-308 | the nodes, bucket by bucket |
| HashTable.Table.EntriesExact | src/vtm/core/smap.h:202-227 | iteration visits each entry of the abstract map exactly once |
| HashTable.Table.Clear | src/vtm/core/map.c:108-121 | the empty map |
| HashTable.Inserted | src/vtm/core/map.c:160-176 | a new node at either end of its chain refines the update of the abstract map |
| HashTable.Replaced | src/vtm/core/smap.h:112-122 | a node put in the place of an equal key refines the update |
| HashTable.Removed | src/vtm/core/map.c:257-269 | taking out the one node with the key refines the removal |
| Chunked.HexLength | src/vtm/core/format.c:83-94 | the counting loop finds the number of digits |
| Chunked.FormatHex | src/vtm/core/format.c:83-103 | the digits written backwards are the hexadecimal number, and nothing before them changes |
| Chunked.HexShort | src/vtm/net/http/http_response.c:233-251 | a 64-bit size has at most 16 digits |
| Chunked.WriteChunked | src/vtm/net/http/http_response.c:233-251 | appends size, data and line ends; an error is kept, and recorded only beyond 2^62 bytes |
| Chunked.HexParses | src/vtm/net/http/http_parser.c:461-487 | reading a written size recovers it |
| Chunked.ChunkParses | src/vtm/net/http/http_parser.c:454-519 | a chunk with data is added to the decoded body |
| Chunked.RoundTrip | src/vtm/net/http/http_parser.c:454-524 | one run on the encoding of non-empty chunks yields their concatenation and processes exactly its bytes |
| Chunked.TooLarge | src/vtm/net/http/http_parser.c:112-116 | an encoding whose last byte is behind the limit is refused |
| Chunked.BodyParser.FinishChunk | src/vtm/net/http/http_parser.c:503-519 | moving a chunk behind the decoded body never reaches an unread byte |
| Chunked.BodyParser.RunOn | src/vtm/net/http/http_parser.c:454-524 | the decoded body lies at the start of the body with its length, the cursor is behind the terminator, and neither an unread byte nor one before the body is altered |
| Chunked.WriteBody | src/vtm/net/http/http_response.c:197-251 | all chunks and the one that ends the body, one behind the other, or an error, which there is only beyond 2^62 bytes |
| Chunked.Exchange | src/vtm/net/http/http_parser.c:454-524 | chunks written behind a header and decoded where they lie are their concatenation, at the start of the body, if and only if the last byte is within the limit; otherwise the body is refused; the header stays |
| Base64.CharRoundTrip | src/vtm/util/base64.c:12-36 | the two tables are inverse on six-bit values |
| Base64.GroupRoundTrip | src/vtm/util/base64.c:38-133 | one group, padded or not, decodes to its bytes |
| Base64.RoundTrip | src/vtm/util/base64.c:38-133 | decoding the encoding returns the bytes, for every non-empty string |
| Base64.GroupCount | src/vtm/util/base64.h:25-31 | the number of groups is the length divided by three, rounded up |
| Base64.Encode | src/vtm/util/base64.c:38-79 | writes the encoding and a NUL, and nothing else, exactly when the buffer has four bytes for each group and one more |
| Base64.Decode | src/vtm/util/base64.c:81-133 | wherever it reads only its input: writes the decoded bytes and nothing else, exactly when there is a group and the buffer has three bytes for each |
| Base64.DecodeLoopEnds | src/vtm/util/base64.c:98-115 | the loop comes to its end if and only if the length is a multiple of four |
| Url.RoundTrip | src/vtm/net/url.c:179-278 | decoding after encoding is the identity |
| Url.OnlyUnreserved | src/vtm/net/url.c:191-209 | only unreserved characters and percent signs occur in an encoded text |
| Url.EncodedLength | src/vtm/net/url.c:191-209 | each escaped character takes three bytes, and a text is unchanged if and only if all its characters are unreserved |
| Url.Encode | src/vtm/net/url.c:179-213 | succeeds exactly when the buffer is longer than the encoded text, which it then holds with a NUL, and nothing behind it is written |
| Url.Decode | src/vtm/net/url.c:215-258 | on success the decoded text with a NUL; an error only for an invalid text or a buffer that is too small |
| Sql.LongestName | src/vtm/sql/sql_util.c:31-33 | the name taken is the longest run of name characters |
| Sql.MarksAndNames | src/vtm/sql/sql_util.c:22-54 | as many names as unquoted colons; the unquoted marks of the result are these and the ones the query had; no unquoted colon is left |
| Sql.QuotedText | src/vtm/sql/sql_util.c:22-54 | quoted text is unchanged, between the same apostrophes |
| Sql.RestoreInverts | src/vtm/sql/sql_util.c:22-54 | for a query without loose marks, putting colon and name back where the marks are restores it |
| Sql.RestoredRewrites | src/vtm/sql/sql_util.c:22-54 | names put back at the first or at the last of enough loose marks are found again, and the text around them is the same |
| Sql.Determined | src/vtm/sql/sql_util.c:22-54 | no other query has the same result if and only if the query has no parameter or no loose mark |
| Sql.Unmarked | src/vtm/sql/sql_util.c:22-54 | a query without a mark outside quotes is restored, and its result has one mark for each name |
| Sql.RewriteTwice | src/vtm/sql/sql_util.c:22-54 | rewriting again changes nothing and finds no names |
| Sql.ExtractQueryParams | src/vtm/sql/sql_util.c:11-63 | the loop appends all names, and the rewritten query or a prefix of it; a prefix only if the buffer overflows, which needs more than 2^62 bytes; it always reports success |
| SQueue.Queue.Add | src/vtm/core/squeue.h:53-61 | the element comes last; only it and the former last one get another pointer |
| SQueue.Queue.Poll | src/vtm/core/squeue.h:69-77 | the oldest element, or null exactly for an empty queue |
| SQueue.Queue.Clear | src/vtm/core/squeue.h:142-153 | every element is visited once, in order, and the queue is empty |
| DgramServer.ExecInv | src/vtm/net/socket_dgram_server.c:227-419 | the invariant of the monitor holds in every state that any schedule reaches |
| DgramServer.CountIsLength | src/vtm/net/socket_dgram_server.c:302-315 | the counter is the length of the queue plus what the last run left, so the length if and only if that is nothing; it is within the limit when there is something in the queue |
| DgramServer.Starves | src/vtm/net/socket_dgram_server.c:86-190 | after a run that left as many datagrams as the limit, or more, the next one never queues or handles any |
| DgramServer.FirstCome | src/vtm/net/socket_dgram_server.c:390-409 | datagrams are taken in the order of their arrival, none skipped |
| DgramServer.ExactlyOnce | src/vtm/net/socket_dgram_server.c:302-409 | each datagram that arrived is in exactly one place: processed, with one worker, queued, with the receiving thread, or dropped |
| DgramServer.OnlyTheLastIsDropped | src/vtm/net/socket_dgram_server.c:302-315 | at most the last datagram is dropped, and only after a stop |
| DgramServer.Ended | src/vtm/net/socket_dgram_server.c:158-174 | after the join, the first datagrams were processed, each once; the rest were queued or dropped |
| DgramServer.SleepersHaveNothingToDo | src/vtm/net/socket_dgram_server.c:302-409 | no worker sleeps while the queue has an element, and the receiving thread only while the counter is at the limit |
| DgramServer.StallsIff | src/vtm/net/socket_dgram_server.c:302-409 | a stopped server cannot go on if and only if the receiving thread waits for room and no worker is awake, or workers sleep after the last signal; in the first case they have all ended if the last run left less than the limit |
| DgramStalls.CanBeAbandoned | src/vtm/net/socket_dgram_server.c:302-315 | a run into the first of these states, for every number of workers and every limit |
| DgramStalls.CanMissTheEnd | src/vtm/net/socket_dgram_server.c:340-346 | a run into the second, for every number of workers and every limit |
| DgramStalls.CanStarveTheNext | src/vtm/net/socket_dgram_server.c:86-190 | a run that ends with the counter at the limit, for every number of workers and every limit, and what this means for the next one |
| DgramMonitor.Dgrams.Enqueue | src/vtm/net/socket_dgram_server.c:302-315 | the critical section on the linked queue does what the step of the model does |
| DgramMonitor.Dgrams.Dequeue | src/vtm/net/socket_dgram_server.c:390-409 | so does the one of a worker |

## Left out

- Stream server: cross-thread updates and relay events, sockets armed for both directions at once, and CLOSED or ERROR events
  of the server socket, which break or bypass the single token the ledger rests on.
- Stream server: `accept` and the first reference are one step, since no other thread knows the socket; so are adding a socket
  to the listener and to the connection map, which one mutex guards. Closing a plain socket always succeeds.
- Stream server: liveness. An event whose lock attempt fails is dropped, and broadcasts are sent without the mutex.
- Stream server without workers (`handle_direct`, `drain_direct`): no interleaving.
- Latches: `vtm_latch_count` and `vtm_latch_await` are the counters `prepare` and `runLatch` of the stream server's state,
  and their assertion is part of the fault that `NoFault` excludes.
- Threads, mutexes, epoll, kqueue, select, TLS and name resolution: atomic steps, one-shot arming and byte channels.
- Running out of memory. Between 2^62 bytes and the largest capacity of a buffer, `Buffer` says exactly when it overflows; the
  writers that append in several steps only say that they then may.
- NmProtocol.MsgToBuf: the code for a message without fields is a parameter, since the source leaves it uninitialised.
- NmProtocol.PutField: packed floating-point words are opaque, with a marker for values that cannot be packed.
- Hash tables: floating-point keys, whose byte hash does not agree with their comparison on signed zero; freeing of nodes.
- Chunked.BodyParser.RunOn: one run from the start of the body; the parser re-initialises the previous state on every call.
- The request line, the headers and the other body states of HTTP; file emitters; JSON; routing.
- WsParser.FrameParser.RunOn: the fragment counter is unbounded.
- WsParser.FrameParser.MakeRoom: where one doubling does not make enough room the model stops with a status of its own; what
  the memory behind the buffer holds is not modelled. Allocating nothing for an empty control payload is taken to succeed.
- Base64.Decode: what a length that is not a multiple of four yields, where the source reads behind its input.
- Sql.ExtractQueryParams: the scratch buffer for a name is a local sequence.
- Datagram server without workers, its socket and its listener.
