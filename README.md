# Mini Spotify over UDP: a Dafny model of the Go-Back-N streaming core

The system streams `.wav` files from a music server to two kinds of client
over UDP. The server answers discovery requests (`LIST`, `BUSCAR:<song>`) and
streams a song on `PLAY:<song>` from an ephemeral socket. The protocol is
Go-Back-N: a window of 5 packets, each packet a 4-byte big-endian sequence
number followed by up to 1024 bytes of the file, cumulative `ACK:<n>`, and
the whole window resent after a 100 ms timeout. The same loop reacts to
`PAUSE`, `RESUME`, `SKIP:*`, `REWIND` (±400 packets with a shared 200 ms
debounce) and `STOP`, and it sends `END` when the loop guard fails. A
malformed `ACK:` throws out of the loop, and then no `END` is sent.

The console client (`MusicClient`) searches the three known servers, then
runs a strict in-order receiver into a bounded audio queue of 50 chunks.
Keyboard commands go back to the streaming socket. The graphical client
(`MusicClientGUI`) uses the same receiver with these additions:

- a paused drain;
- filtering of late `LIST`/`FOUND` replies;
- a resynchronisation state after Skip/Rewind (a jump of more than 10 is
  adopted; after 20 discards it adopts whatever arrives);
- Skip, Rewind and Resume buttons that send their command three times
  (Pause sends `PAUSE` once);
- reading of the WAV `fmt ` fields from the first chunk;
- a playback clock.

## Layout

| file | content |
|---|---|
| `Wrappers.dfy` | `Option`, for Java's `null` and for inputs that throw |
| `Bytes.dfy` | bytes, Java `int` wrap-around, big- and little-endian fields, `Math.abs`, truncating `/` and `%` |
| `JavaText.dfy` | the `String` operations the code relies on: `trim`, `split` at a colon, ASCII case mapping, `equalsIgnoreCase`, `Integer.parseInt`, `Integer.toString` |
| `Wire.dfy` | `createPacket`, the packet count, the sequence-number read, `END`, `ACK:<n>`, datagrams, `sendControlMessage` output, and the loss-free server stream |
| `AudioQueue.dfy` | the `LinkedBlockingQueue<byte[]>` as a bounded FIFO class |
| `MusicServer.dfy` | the sender state of `startStreamingGBN`, the window fill, one event, the whole loop, `handleRequest` and `findFileRobust` |
| `MusicClient.dfy` | the console client: search, receiver, control loop, as the class `ConsoleClient` proved against the pure functions `Receive`/`Deliveries`/`ControlMessages` |
| `MusicClientGUI.dfy` | the graphical client: resynchronisation, receiver, buttons, WAV fields, clock, as the class `GuiClient` proved against `GuiReceive`/`GuiDeliveries` |

The sender of `startStreamingGBN` changes only local variables. It is
therefore a value, `Sender`, with the following pieces:

- a method `FillWindow` for the inner send loop;
- pure event handlers;
- `Run`, the loop over a finite sequence of events;
- a method `StreamGBN` proved to send exactly the packets `Run` lists.

The clients change fields shared between threads, so they are classes. Each
method is proved against a pure function of the datagrams received.

The model follows these behaviours of the code:

- The code has no `SEEK:` and no `META:` message.
- An ACK has no upper bound (`ack >= base` is the only test), so `base` can
  run past `nextSeqNum`. `WindowInvariant` therefore does not include
  `base <= nextSeqNum`.
- The console client drops a chunk when its queue is full (`offer` without
  a timeout). The graphical client waits up to 1 s and then drops it. There
  is no blocking backpressure.
- The graphical client checks the pause flag before anything else, so even
  `END` is drained while paused. It adopts the sender's port but never its
  address.
- The console client reads a datagram shorter than 4 bytes with the stale
  header of the previous one. It crashes the receiver when that header
  equals `expectedSeq`; otherwise the datagram draws a duplicate ACK. It is
  never discarded.

## Model

| member | source | states |
|---|---|---|
| Bytes.WrapInt32 | src/MusicServer.java:134 | the result is a Java `int`, congruent to the input modulo 2^32, and equal to it when it already fits |
| Bytes.DecodeBE32 | src/MusicClient.java:140-143 | the four masked bytes shifted together as a Java `int`; negative exactly when the top byte's high bit is set |
| Bytes.DecodeEncodeBE32 | src/MusicServer.java:184-187 | reading back the four bytes `createPacket` writes gives every Java `int`, negative ones included |
| Bytes.LE16 | src/MusicClientGUI.java:331 | an unsigned 16-bit little-endian field |
| Bytes.LE32 | src/MusicClientGUI.java:332-333 | a 32-bit little-endian field as a Java `int`, negative exactly when its top byte's high bit is set |
| Bytes.JavaAbs | src/MusicClientGUI.java:286 | `Math.abs`: the magnitude, except that `Integer.MIN_VALUE` stays negative |
| Bytes.JavaDiv | src/MusicClientGUI.java:360-361 | truncating division: the Euclidean quotient for non-negative operands, with the sign of the operands otherwise |
| Bytes.JavaRem | src/MusicClientGUI.java:362 | the remainder completes the truncating division and takes the dividend's sign |
| JavaText.ToUpper | src/MusicClient.java:201 | the same length, every character upper-cased |
| JavaText.TrimStart | src/MusicServer.java:45 | drops exactly the leading characters `trim` removes (code point at most U+0020) |
| JavaText.TrimEnd | src/MusicServer.java:45 | drops exactly the trailing characters `trim` removes |
| JavaText.IndexOf | src/MusicServer.java:46 | the first position of the character, or the length when it is absent |
| JavaText.ParseInt | src/MusicServer.java:132 | `Integer.parseInt`: a value exactly when the text is an optionally signed digit string whose value fits a Java `int`, and then that value |
| JavaText.IntToString | src/MusicClient.java:155 | the decimal text of an `int` has at least one character and no `:` or `,` |
| JavaText.ParseIntToString | src/MusicServer.java:132 | `parseInt` reads back every `int` a client writes after `ACK:` |
| Wire.TotalPackets | src/MusicServer.java:102 | the ceiling of the length over 1024: enough packets for the file, no empty last packet, and zero only for an empty file |
| Wire.TotalPacketsBound | src/MusicServer.java:101-102 | a file read into a `byte[]` has at most 2^21 packets |
| Wire.SeqNumOf | src/MusicClient.java:140-143 | the sequence number read from a datagram is a Java `int` |
| Wire.CreatePacket | src/MusicServer.java:180-190 | 4 header bytes plus the `seqNum`-th slice of at most 1024 bytes; the header reads back as `seqNum`; the packet fits the clients' 1028-byte buffer |
| Wire.ReassembledPrefix | src/MusicServer.java:180-190 | the payloads of the first `n` packets are the file's first `min(1024 n, length)` bytes |
| Wire.Reassembly | src/MusicServer.java:180-190 | the payloads of all packets, concatenated, are the whole file |
| Wire.DataPacketIsNotEnd | src/MusicClient.java:133 | no data packet is the `END` text |
| Wire.DataPacketIsNotDiscovery | src/MusicClientGUI.java:267 | a data packet starts with a zero byte, so it never reads as `LIST...` or `FOUND...` |
| Wire.Truncate | src/MusicClient.java:118-123 | a received datagram is its prefix of at most the buffer's length |
| Wire.SendTo | src/MusicClient.java:224-234 | one datagram carrying the text to the current port when an address is known, none otherwise |
| Wire.InOrderPayloads | src/MusicServer.java:180-190 | the payloads of packets `k` onwards, in order, are the file from byte `1024 k` on |
| Wire.InOrderReassembly | src/MusicServer.java:180-190 | delivering packets 0, 1, ... in order reassembles the whole file |
| AudioQueue.BoundedQueue.constructor | src/MusicClient.java:19 | an empty queue with the given capacity |
| AudioQueue.BoundedQueue.Offer | src/MusicClient.java:152 | appends exactly when there is room, reports it, and otherwise leaves the queue as it was |
| AudioQueue.BoundedQueue.Poll | src/MusicClient.java:182 | removes and returns the head, or nothing from an empty queue |
| AudioQueue.BoundedQueue.Peek | src/MusicClientGUI.java:330 | returns the head without removing it |
| AudioQueue.BoundedQueue.Clear | src/MusicClient.java:214 | leaves the queue empty |
| MusicServer.FillWindow | src/MusicServer.java:112-122 | sends `nextSeqNum` up to `min(base + 5, totalPackets)`, or nothing while paused, and leaves `nextSeqNum` there |
| MusicServer.FillCompletesWindow | src/MusicServer.java:112-122 | unpaused, the fill reaches the window's edge; paused, it sends nothing; the window invariant survives it |
| MusicServer.ClientAckIsUnderstood | src/MusicServer.java:131-132 | the server reads every `ACK:<n>` a client sends as exactly `n` |
| MusicServer.IterationKeepsWindow | src/MusicServer.java:110-171 | one pass of the loop (fill, then any event) keeps `0 <= base`, `nextSeqNum <= base + 5` and `nextSeqNum <= totalPackets` |
| MusicServer.AckIsCumulative | src/MusicServer.java:131-136 | an ACK at or above `base` moves `base` just past it and nothing else; an older ACK changes nothing; a repeated ACK is idempotent; `base` never decreases |
| MusicServer.SkipMovesForward | src/MusicServer.java:145-153 | an accepted SKIP sets `base` to `min(base + 400, totalPackets - 1)`, restarts the window there, stamps the clock, and keeps the other fields |
| MusicServer.RewindMovesBack | src/MusicServer.java:154-162 | an accepted REWIND sets `base` to `max(base - 400, 0)`, restarts the window there, stamps the clock, and keeps the other fields |
| MusicServer.JumpsShareDebounce | src/MusicServer.java:145-162 | after an accepted SKIP or REWIND, another jump of either kind within 200 ms changes nothing |
| MusicServer.RejectedJumpChangesNothing | src/MusicServer.java:145-162 | a SKIP or REWIND within 200 ms of the last accepted jump leaves the whole sender state unchanged, and the loop goes on |
| MusicServer.TimeoutResendsWindow | src/MusicServer.java:167-171 | a timeout rewinds `nextSeqNum` to `base`, so the next fill resends the whole unacknowledged window (nothing while paused) |
| MusicServer.ControlFlagsOnly | src/MusicServer.java:137-165 | PAUSE, RESUME and STOP each set their one flag; any unrecognised text leaves the state unchanged |
| MusicServer.AckOverflowBreaksWindow | src/MusicServer.java:133-135 | as written, `ACK:2147483647` makes `base` wrap to `Integer.MIN_VALUE` while the loop keeps running with the window invariant broken |
| MusicServer.RunInvariants | src/MusicServer.java:110-172 | over any sequence of events: the window invariant holds at the end, every packet sent is a packet of the file, and the run completes exactly when the loop guard fails |
| MusicServer.SenderIteration | src/MusicServer.java:110-171 | one pass sends the packets of the fill, in order, and returns the state the event leads to, or none when a malformed ACK kills the session |
| MusicServer.StreamGBN | src/MusicServer.java:101-174 | sends exactly the packets `Run` lists, in order, followed by `END` only when the loop guard failed; the final state keeps the window invariant |
| MusicServer.ListBodyRoundTrip | src/MusicServer.java:52-59 | the `LIST_RES:` body splits back into exactly the `.wav` entries, in folder order, when no name holds a comma |
| MusicServer.FirstMatch | src/MusicServer.java:82-91 | the first entry equal to the name ignoring case, or none when no entry is |
| MusicServer.FindFileRobust | src/MusicServer.java:82-91 | the loop returns the first case-insensitive match, or `null` |
| MusicServer.OnlyKnownCommandsAct | src/MusicServer.java:45-73 | only a request whose command word is `LIST`, `BUSCAR` or `PLAY` gets any reply or stream |
| MusicServer.SplitRequest | src/MusicServer.java:45-47 | a request is split at its first colon only: the command is the text before it, and the argument, trimmed, is everything after it |
| MusicServer.HandleSplit | src/MusicServer.java:43-75 | `command:arg` dispatches on the command with the trimmed argument |
| MusicServer.PlayRequest | src/MusicServer.java:68-72 | `PLAY:<name>` streams the first entry matching the trimmed name, and does nothing when none matches |
| MusicServer.SearchRequest | src/MusicServer.java:61-66 | `BUSCAR:<name>` answers `FOUND:<port>` exactly when some entry matches the trimmed name |
| MusicClient.FirstFound | src/MusicClient.java:54-83 | -1 exactly when no server answered `FOUND`; otherwise the first such port in order |
| MusicClient.SearchSongInServers | src/MusicClient.java:54-83 | the loop over 9001, 9002, 9003 returns the first port that answered `FOUND`, or -1 |
| MusicClient.Overlay | src/MusicClient.java:118-123 | the reused buffer's first four bytes after a receive: the new datagram's bytes, and the old header where it is shorter |
| MusicClient.Receive | src/MusicClient.java:131-162 | `END` finishes, and only `END`; a datagram is delivered, with its payload, exactly when its header is `expectedSeq`; it crashes exactly when it is shorter than 4 bytes and the stale header completes `expectedSeq`; everything else is out of order |
| MusicClient.ServerPacketReception | src/MusicClient.java:145-162 | a server packet is delivered exactly when it is the expected one; anything else is only acknowledged again |
| MusicClient.DeliveriesInOrder | src/MusicClient.java:145-162 | the queued chunks carry `expectedSeq, expectedSeq + 1, ...`: no gap, no repeat, no reordering |
| MusicClient.TakesNextPacket | src/MusicClient.java:145-156 | in step with the server, the receiver queues packet `k` and moves on to `k + 1` |
| MusicClient.StopsAtEnd | src/MusicClient.java:133-137 | after the last packet, `END` stops the receiver with nothing more queued |
| MusicClient.FollowsStream | src/MusicClient.java:116-167 | in step with a loss-free stream from packet `k`, the receiver queues exactly packets `k ..` in order |
| MusicClient.ConsoleReceivesWholeFile | src/MusicClient.java:116-167 | over a loss-free network the chunks queued make up the whole file |
| MusicClient.Ending | src/MusicClient.java:116-167 | where the loop stops on the datagrams received: at `END`, at the short-datagram crash, or when nothing more arrives |
| MusicClient.StreamEndsWithEnd | src/MusicClient.java:133-137 | in step with a loss-free stream, the receiver runs to the server's `END` and stops there, never by a crash |
| MusicClient.Ack | src/MusicClient.java:152-160 | a delivery is acknowledged with `ACK:<expectedSeq>`, anything out of order with `ACK:<expectedSeq - 1>`, `END` and the crash with nothing |
| MusicClient.Acks | src/MusicClient.java:116-167 | the acknowledgements for the datagrams received, each to the endpoint adopted from that datagram, none after `END` or the crash |
| MusicClient.AcksOfStream | src/MusicClient.java:116-167 | in step with a loss-free stream, the receiver adopts the stream's endpoint and acknowledges packets `k .. n-1` once each, in order, and nothing after `END` |
| MusicClient.KeyMessage | src/MusicClient.java:201-219 | `P`, `R`, `A` and `S` in either case stand for PAUSE, RESUME, SKIP:FAST and STOP; every other line for nothing |
| MusicClient.ControlMessages | src/MusicClient.java:200-221 | the messages sent never continue past the first STOP, and there is at most one per line |
| MusicClient.ControlMessagesAppend | src/MusicClient.java:200-221 | once STOP has been sent, later lines send nothing; before that, the messages of two runs of lines are concatenated |
| MusicClient.ConsoleClient.constructor | src/MusicClient.java:13-19 | no server endpoint known, not playing, an empty queue of capacity 50 |
| MusicClient.ConsoleClient.SendControlMessage | src/MusicClient.java:224-234 | sends to the current endpoint, and nothing while its address is `null` |
| MusicClient.ConsoleClient.ReceivePacket | src/MusicClient.java:121-162 | adopts the sender's endpoint when its port differs; offers the queue exactly the delivered chunk; sends exactly `Ack` of what `Receive` decided, to the endpoint now held; stops playing exactly on `END` |
| MusicClient.ConsoleClient.ReceiveNext | src/MusicClient.java:121-162 | one iteration keeps the loop's accounts: chunks queued and offered, acknowledgements sent and where the loop ends, each followed by what the rest of the datagrams will do, add up to the whole |
| MusicClient.ConsoleClient.ReceiverGBNLoop | src/MusicClient.java:116-167 | from sequence 0, the loop queues exactly `Deliveries` of the datagrams received and offers the queue exactly those chunks, sends exactly their `Acks`, ends as `Ending` says, and stops playing exactly when `END` arrived |
| MusicClient.ConsoleClient.PlaySong | src/MusicClient.java:85-108 | clears the queue, starts playing, sends `PLAY:<song>` to the server, then sends exactly the receiver's `Acks` and queues exactly its `Deliveries` |
| MusicClient.ConsoleClient.ControlLoop | src/MusicClient.java:196-222 | sends exactly `ControlMessages` of the lines typed, reads no line after the first `S`, and empties the queue exactly when an `A` was sent while playing |
| MusicClient.ConsoleClient.ControlNext | src/MusicClient.java:200-221 | one line extends the messages sent by that line's message, playback stops exactly when a STOP has been sent, and the queue is empty exactly once a SKIP has been sent |
| MusicClient.ConsoleClient.ControlKey | src/MusicClient.java:201-219 | a recognised key sends its message; `A` also empties the queue; `S` stops playback; a line after playback ended does nothing |
| MusicClientGUI.ResyncStep | src/MusicClientGUI.java:285-303 | while skipping, a jump of more than 10 or a 21st packet ends skipping and resets the counter; exactly the other packets are dropped, each counted, at most 20; outside a skip every packet passes |
| MusicClientGUI.JumpIsDistance | src/MusicClientGUI.java:286 | for non-negative sequence numbers the overflow-prone `Math.abs(seqNum - expectedSeq) > 10` is the plain distance test |
| MusicClientGUI.AtMostTwentyDiscards | src/MusicClientGUI.java:292-301 | one skip drops at most 20 packets in a row, whatever arrives |
| MusicClientGUI.ExactlyTwentyDiscards | src/MusicClientGUI.java:285-303 | while every packet stays within 10 of `expectedSeq`, a skip drops exactly as many as its counter has left before 20 (all of them when fewer arrive) |
| MusicClientGUI.GuiReceive | src/MusicClientGUI.java:254-318 | paused: drained with no change; `LIST`/`FOUND` replies are ignored; `END` finishes, and only `END`; 4 bytes or fewer are skipped; outside a skip the packet is delivered exactly when it is the expected one and otherwise the last ACK is repeated; while skipping it is discarded exactly when `ResyncStep` drops it and otherwise delivered at once |
| MusicClientGUI.GuiServerPacket | src/MusicClientGUI.java:305-317 | outside a skip, a server packet is delivered exactly when it is the expected one |
| MusicClientGUI.SkipResyncsToServer | src/MusicClientGUI.java:285-314 | while skipping, the first packet more than 10 away is adopted and delivered at once, and skipping ends |
| MusicClientGUI.PausedQueuesNothing | src/MusicClientGUI.java:259-262 | while paused nothing is queued, whatever arrives |
| MusicClientGUI.GuiTakesNextPacket | src/MusicClientGUI.java:305-314 | in step with the server, the receiver queues packet `k` and moves on to `k + 1` |
| MusicClientGUI.GuiStopsAtEnd | src/MusicClientGUI.java:268-279 | after the last packet, `END` stops the receiver with nothing more queued |
| MusicClientGUI.GuiFollowsStream | src/MusicClientGUI.java:249-321 | in step with a loss-free stream from packet `k`, the receiver queues exactly packets `k ..` in order |
| MusicClientGUI.GuiReceivesWholeFile | src/MusicClientGUI.java:249-321 | over a loss-free network the chunks queued make up the whole file |
| MusicClientGUI.GuiAck | src/MusicClientGUI.java:305-317 | a delivery is acknowledged with its own sequence number, an out-of-order packet with `expectedSeq - 1` (as a Java `int`), anything else with nothing |
| MusicClientGUI.GuiAcks | src/MusicClientGUI.java:249-321 | the acknowledgements for the datagrams received, to the port adopted from each (kept while paused), none after `END` |
| MusicClientGUI.GuiEnds | src/MusicClientGUI.java:268-279 | whether `END` arrives, not paused, among the datagrams received |
| MusicClientGUI.PausedSendsNothing | src/MusicClientGUI.java:259-262 | while paused, no acknowledgement is sent, whatever arrives |
| MusicClientGUI.PausedNeverEnds | src/MusicClientGUI.java:259-262 | while paused, even `END` is drained, so the loop never ends by itself |
| MusicClientGUI.GuiAcksOfStream | src/MusicClientGUI.java:249-321 | in step with a loss-free stream, the client replies to the stream's port and acknowledges packets `k .. n-1` once each, in order, and nothing after `END` |
| MusicClientGUI.GuiStreamEnds | src/MusicClientGUI.java:268-279 | in step with a loss-free stream, the loop runs until the server's `END` |
| MusicClientGUI.ReadWavFormat | src/MusicClientGUI.java:330-338 | channels, rate and bits come from bytes 22, 24 and 34; each field out of range is replaced by 2, 44100 or 16; a chunk too short fails |
| MusicClientGUI.ReadWavHeader | src/MusicClientGUI.java:330-338 | a chunk starting with a canonical header of an accepted format reads back as exactly that format |
| MusicClientGUI.BytesPerSecond | src/MusicClientGUI.java:349-350 | the byte rate of the playback line is positive |
| MusicClientGUI.ByteRateIsExact | src/MusicClientGUI.java:349-350 | for an accepted format the byte rate is exact (`rate * channels * bits / 8`, between 4000 and 768000) and the 176400 fallback never applies |
| MusicClientGUI.PlaybackClock | src/MusicClientGUI.java:359-365 | minutes and seconds recompose the elapsed seconds (`1024 * currentSeqNum` over the byte rate, truncated); for a non-negative packet the minutes are that quotient over 60, the seconds under 60, and the bar the elapsed seconds modulo 100 |
| MusicClientGUI.GuiClient.constructor | src/MusicClientGUI.java:13-24 | not playing, paused or skipping; `lastAckedSeq = -1`; an empty queue of capacity 500 |
| MusicClientGUI.GuiClient.SendControlMessage | src/MusicClientGUI.java:379-385 | sends to the current endpoint; with no address the send fails silently |
| MusicClientGUI.GuiClient.SendThreeTimes | src/MusicClientGUI.java:126 | the same message sent three times in a row |
| MusicClientGUI.GuiClient.Skip | src/MusicClientGUI.java:123-129 | enters skipping, sends `SKIP:FAST` three times, empties the queue |
| MusicClientGUI.GuiClient.Rewind | src/MusicClientGUI.java:132-137 | enters skipping, sends `REWIND` three times, empties the queue |
| MusicClientGUI.GuiClient.Pause | src/MusicClientGUI.java:140-146 | sends `PAUSE` once and sets the pause flag |
| MusicClientGUI.GuiClient.Resume | src/MusicClientGUI.java:149-159 | clears the pause flag, sends `RESUME` three times, then `ACK:<lastAckedSeq>` once anything has been acknowledged |
| MusicClientGUI.GuiClient.StartStreaming | src/MusicClientGUI.java:216-247 | resets every flag and counter, empties the queue, and sends `PLAY:<song>` to 127.0.0.1 on the found port |
| MusicClientGUI.GuiClient.ReceivePacket | src/MusicClientGUI.java:254-318 | one pass does what `GuiReceive` says: adopts the sender's port unless paused, offers the queue exactly the delivered chunk, records it as `lastAckedSeq` and `currentSeqNum`, sends exactly its `GuiAck`, and stops playing exactly on `END` |
| MusicClientGUI.GuiClient.Act | src/MusicClientGUI.java:305-317 | carries out one decision: queue and acknowledge a delivery, repeat the last ACK out of order, stop playing on `END`; no other field changes |
| MusicClientGUI.GuiClient.ReceiveNext | src/MusicClientGUI.java:254-320 | one iteration keeps the loop's accounts: chunks queued and offered, acknowledgements sent, whether `END` is met, and the last sequence number acknowledged |
| MusicClientGUI.GuiClient.ReceiverLoop | src/MusicClientGUI.java:249-321 | from sequence 0, the loop queues exactly `GuiDeliveries` of the datagrams received and offers the queue exactly those chunks, sends exactly their `GuiAcks`, keeps playing exactly when `GuiEnds` is false, and leaves `lastAckedSeq` and `currentSeqNum` at the last delivery |

## Left out

- Sockets, threads, Swing and `javax.sound` are not modelled. The model takes
  datagrams, clock readings and typed lines as inputs, and it collects the
  datagrams sent as a sequence.
- The `start` loops, `main` methods, `sendResponse` and `TestDiagnostico`
  are not part of this model.
- `new String(bytes)` and `getBytes()` are taken as ASCII. Names and typed
  lines outside ASCII are not decoded byte by byte.
- Entry names stand for `File` objects in `listFiles` order. The model does
  not distinguish files from directories: `findFileRobust` may return a
  directory, and the LIST filter keeps a directory whose name ends in `.wav`.
- Reading the file (`readAllBytes`) and its `IOException` are left out: the
  model starts from the file's bytes.
- The 1024-byte buffers of lines 32 and 126 of `MusicServer.java` would cut
  longer requests and commands. `HandleRequest` and `Classify` take the whole
  text.
- `MusicServer.StreamGBN` handles one event per iteration. The clock reading
  travels with each event, and the 100 ms timeout is an event of its own.
- `MusicClient.KeyMessage` maps case for ASCII only. Java's `toUpperCase`
  also maps a few non-ASCII characters (such as `ſ`) to `S`.
- `MusicServer.FirstMatch`, `MusicServer.FindFileRobust`, `JavaText.EqualsIgnoreCase`, `JavaText.ToUpper`
  and `JavaText.ToLower` fold case for ASCII only. Java's
  `equalsIgnoreCase`, `toUpperCase` and `toLowerCase` also fold non-ASCII
  letters, so a name matched only that way is not found by the model.
- `MusicServer.StreamGBN` computes `ack + 1` as an unbounded integer, so it
  models the corrected acknowledgement, not the Java `int` overflow. The
  overflow as written is `MusicServer.OnAckAsWritten`, and
  `MusicServer.AckOverflowBreaksWindow` shows it (see Findings).
- `MusicClient.Receive` keeps `expectedSeq` as an unbounded integer.
  `expectedSeq` equals the number of chunks delivered, so Java's `int` could
  wrap only after 2^31 deliveries.
- `MusicClientGUI.GuiClient.ReceivePacket` models the 1 s timed `offer` as
  dropping the chunk when the queue stays full. The wait itself is not
  modelled.
- `MusicClientGUI.GuiClient.ReceiverLoop` does not model the control
  threads. Inside one run of the loop the pause flag and the skipping flag
  change only through the loop itself. The interleaving with the buttons
  and the console `controlLoop` is not modelled.
- `MusicClient.ConsoleClient.ReceiverGBNLoop` and `ControlLoop` are two
  separate runs. Their interleaving on `isPlaying` is not modelled.
- The audio player loops (`audioPlayerWorker`) are modelled only through
  their arithmetic: the WAV field read, the byte rate and the clock. The
  waits for buffering, the `Thread.sleep` calls and the writes to the
  sound line are left out.
- The GUI's `refreshServers` and `startSearch` are left out. `startSearch`
  is the same first-`FOUND` scan as `MusicClient.SearchSongInServers`, and
  `refreshServers` only displays the `LIST_RES:` replies.
- `MusicClientGUI.PlaybackClock` takes `currentSeqNum * 1024L` as
  mathematical: with at most 2^21 packets the `long` product cannot
  overflow.
- `MusicClientGUI.BytesPerSecond` computes `(long)(rate * channels * (bits /
  8.0))` in integers. This is exact for 8 and 16 bits, the only sizes that
  survive sanitising.
- `Wire.TotalPackets` uses the integer ceiling for `Math.ceil((double) n /
  1024)`. The two agree because division by a power of two is exact in
  `double`.
- Button enabling and disabling, status labels and the progress bar
  widget are not modelled. Only the values computed for them are.

## Findings

| source | as written | input that shows it | evidently intended | confidence | as-written member | corrected member |
|---|---|---|---|---|---|---|
| src/MusicServer.java:134 | `base = ack + 1` in `int` arithmetic wraps for the largest ACK, so `base` becomes `Integer.MIN_VALUE`; the loop keeps running with `nextSeqNum` far beyond `base + WINDOW_SIZE` | the datagram `ACK:2147483647` while streaming a one-packet file | an acknowledgement moves `base` just past it and never backwards, keeping the window invariant | not executed | MusicServer.AckOverflowBreaksWindow | MusicServer.IterationKeepsWindow |
