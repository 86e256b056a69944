/**
 * The console client (`MusicClient`): discovery of a server holding a song,
 * the strict in-order Go-Back-N receiver that feeds the player's bounded
 * queue, and the keyboard controls sent back to the streaming socket.
 *
 * What one datagram does to the receiver is the pure function `Receive`;
 * `Deliveries` folds it over a sequence of datagrams. The `ConsoleClient`
 * class performs the same steps on its fields and is proved against them.
 */
module MusicClient {
  import opened Wrappers
  import opened Bytes
  import opened JavaText
  import opened Wire
  import opened AudioQueue

  /** The three servers the client asks, in order. */
  const SERVER_PORTS: seq<int> := [9001, 9002, 9003]
  /** Capacity of the console client's audio queue. */
  const QUEUE_CAPACITY: nat := 50
  /** Size of the buffer a search reply is read into. */
  const SEARCH_BUFFER_SIZE: nat := 256
  /** The receive buffer's header bytes as `new byte[1028]` leaves them. */
  const ZERO_HEADER: seq<byte> := [0, 0, 0, 0]

  // ---------------------------------------------------------------- discovery

  /** A search reply counts when its text starts with `FOUND`. */
  predicate IsFound(reply: seq<byte>) {
    StartsWithText(Truncate(reply, SEARCH_BUFFER_SIZE), "FOUND")
  }

  /**
   * The first port in `ports` whose reply starts with `FOUND`, or -1. A port
   * missing from `replies` did not answer before the 500 ms timeout.
   */
  function FirstFound(ports: seq<int>, replies: map<int, seq<byte>>): (r: int)
    requires forall i :: 0 <= i < |ports| ==> ports[i] >= 0
    ensures r == -1 <==> forall i :: 0 <= i < |ports| ==> !(ports[i] in replies && IsFound(replies[ports[i]]))
    ensures r != -1 ==> exists i :: (0 <= i < |ports| && ports[i] == r && r in replies && IsFound(replies[r]) &&
      forall j :: 0 <= j < i ==> !(ports[j] in replies && IsFound(replies[ports[j]])))
  {
    if ports == [] then -1
    else if ports[0] in replies && IsFound(replies[ports[0]]) then ports[0]
    else
      var r := FirstFound(ports[1..], replies);
      assert forall i :: 1 <= i < |ports| ==> ports[i] == ports[1..][i - 1];
      r
  }

  /** The search from position `i` on: port `i` if it found the song, else the search from `i + 1`. */
  lemma FirstFoundAt(ports: seq<int>, replies: map<int, seq<byte>>, i: nat)
    requires forall j :: 0 <= j < |ports| ==> ports[j] >= 0
    requires i < |ports|
    ensures FirstFound(ports[i..], replies) ==
      if ports[i] in replies && IsFound(replies[ports[i]]) then ports[i] else FirstFound(ports[i + 1..], replies)
  {
    assert ports[i..][0] == ports[i];
    assert ports[i..][1..] == ports[i + 1..];
  }

  /** `searchSongInServers`: asks each server in turn and stops at the first `FOUND`. */
  method SearchSongInServers(replies: map<int, seq<byte>>) returns (port: int)
    ensures port == FirstFound(SERVER_PORTS, replies)
  {
    var ports := SERVER_PORTS;
    var i := 0;
    assert ports[i..] == ports;
    while i < |ports|
      invariant 0 <= i <= |ports| && ports == SERVER_PORTS
      invariant FirstFound(ports, replies) == FirstFound(ports[i..], replies)
    {
      var p := ports[i];
      FirstFoundAt(ports, replies, i);
      if p in replies && IsFound(replies[p]) {
        return p;
      }
      i := i + 1;
    }
    assert ports[i..] == [];
    port := -1;
  }

  // ---------------------------------------------------------------- reception

  /** What the receiver does with one datagram. */
  datatype Reception =
    | Finished                    // the exact text `END`: playback ends, nothing is acknowledged
    | Delivered(chunk: Chunk)     // the expected packet: its payload is queued and acknowledged
    | OutOfOrder                  // anything else: the last in-order packet is acknowledged again
    | Crashed                     // `new byte[length - 4]` with a negative size throws out of the loop

  /**
   * The first four bytes of the reused receive buffer after `data` is
   * received into it: a datagram shorter than four bytes leaves the rest of
   * the previous header in place.
   */
  function Overlay(header: seq<byte>, data: seq<byte>): (h: seq<byte>)
    requires |header| == HEADER_SIZE
    ensures |h| == HEADER_SIZE
    ensures forall i :: 0 <= i < HEADER_SIZE ==> h[i] == if i < |data| then data[i] else header[i]
  {
    if |data| >= HEADER_SIZE then data[..HEADER_SIZE] else data + header[|data|..]
  }

  /**
   * One pass of `receiverGBNLoop` over the received bytes `data` (already cut
   * to the buffer), with `header` the buffer's previous first four bytes.
   */
  function Receive(expectedSeq: int, header: seq<byte>, data: seq<byte>): (r: Reception)
    requires |header| == HEADER_SIZE
    ensures r == Finished <==> data == END_BYTES
    ensures r.Delivered? <==> data != END_BYTES && |data| >= HEADER_SIZE && SeqNumOf(data) == expectedSeq
    ensures r.Delivered? ==> r.chunk == data[HEADER_SIZE..]
    ensures r == Crashed <==> data != END_BYTES && |data| < HEADER_SIZE && DecodeBE32(Overlay(header, data)) == expectedSeq
    ensures r == OutOfOrder <==> data != END_BYTES && DecodeBE32(Overlay(header, data)) != expectedSeq
  {
    if data == END_BYTES then Finished
    else if DecodeBE32(Overlay(header, data)) == expectedSeq then
      if |data| < HEADER_SIZE then Crashed else Delivered(data[HEADER_SIZE..])
    else OutOfOrder
  }

  /**
   * A packet the server built is delivered exactly when it is the expected
   * one, with its slice of the file; a resent packet below `expectedSeq` is
   * only acknowledged again, never queued twice.
   */
  lemma ServerPacketReception(k: int, fileData: seq<byte>, expectedSeq: int, header: seq<byte>)
    requires |fileData| <= INT_MAX
    requires 0 <= k < TotalPackets(|fileData|)
    requires |header| == HEADER_SIZE
    ensures var p := CreatePacket(k, fileData);
      Receive(expectedSeq, header, p) == if k == expectedSeq then Delivered(p[HEADER_SIZE..]) else OutOfOrder
  {
    DataPacketIsNotEnd(k, fileData);
  }

  /**
   * The chunks the receiver queues, each with the sequence number it was
   * accepted under, while it processes `inbox` from `expectedSeq` on; it
   * stops at `END` or at the crash.
   */
  function Deliveries(expectedSeq: int, header: seq<byte>, inbox: seq<seq<byte>>): seq<(int, Chunk)>
    requires |header| == HEADER_SIZE
    decreases |inbox|
  {
    if inbox == [] then []
    else
      var data := Truncate(inbox[0], RECEIVE_BUFFER_SIZE);
      match Receive(expectedSeq, header, data)
      case Delivered(chunk) => [(expectedSeq, chunk)] + Deliveries(expectedSeq + 1, Overlay(header, data), inbox[1..])
      case OutOfOrder => Deliveries(expectedSeq, Overlay(header, data), inbox[1..])
      case _ => []
  }

  /** One step of `Deliveries`, for the receiver loop. */
  lemma DeliveriesStep(expectedSeq: int, header: seq<byte>, data: seq<byte>, rest: seq<seq<byte>>)
    requires |header| == HEADER_SIZE
    ensures var cut := Truncate(data, RECEIVE_BUFFER_SIZE);
      Deliveries(expectedSeq, header, [data] + rest) ==
        match Receive(expectedSeq, header, cut)
        case Delivered(chunk) => [(expectedSeq, chunk)] + Deliveries(expectedSeq + 1, Overlay(header, cut), rest)
        case OutOfOrder => Deliveries(expectedSeq, Overlay(header, cut), rest)
        case _ => []
  {
    assert ([data] + rest)[1..] == rest;
  }

  /** `DeliveriesStep` at position `i` of `inbox`, given what the datagram there does. */
  lemma DeliveriesAdvance(expectedSeq: int, header: seq<byte>, inbox: seq<seq<byte>>, i: nat, r: Reception)
    requires |header| == HEADER_SIZE && i < |inbox|
    requires r == Receive(expectedSeq, header, Truncate(inbox[i], RECEIVE_BUFFER_SIZE))
    ensures var next := Overlay(header, Truncate(inbox[i], RECEIVE_BUFFER_SIZE));
      && (r.Delivered? ==> Deliveries(expectedSeq, header, inbox[i..]) == [(expectedSeq, r.chunk)] + Deliveries(expectedSeq + 1, next, inbox[i + 1..]))
      && (r == OutOfOrder ==> Deliveries(expectedSeq, header, inbox[i..]) == Deliveries(expectedSeq, next, inbox[i + 1..]))
      && (r == Finished || r == Crashed ==> Deliveries(expectedSeq, header, inbox[i..]) == [])
  {
    assert inbox[i..] == [inbox[i]] + inbox[i + 1..];
    DeliveriesStep(expectedSeq, header, inbox[i], inbox[i + 1..]);
  }

  /** The queued chunks carry `expectedSeq, expectedSeq + 1, ...`: no gap, no repeat, no reordering. */
  lemma {:induction false} DeliveriesInOrder(expectedSeq: int, header: seq<byte>, inbox: seq<seq<byte>>)
    requires |header| == HEADER_SIZE
    ensures forall i :: 0 <= i < |Deliveries(expectedSeq, header, inbox)| ==>
      Deliveries(expectedSeq, header, inbox)[i].0 == expectedSeq + i
    decreases |inbox|
  {
    if inbox != [] {
      var data := Truncate(inbox[0], RECEIVE_BUFFER_SIZE);
      match Receive(expectedSeq, header, data)
      case Delivered(chunk) =>
        DeliveriesInOrder(expectedSeq + 1, Overlay(header, data), inbox[1..]);
      case OutOfOrder =>
        DeliveriesInOrder(expectedSeq, Overlay(header, data), inbox[1..]);
      case _ =>
    }
  }

  /** In step with the server, the receiver takes packet `k` and moves on to `k + 1`. */
  lemma TakesNextPacket(fileData: seq<byte>, k: nat, header: seq<byte>)
    requires |fileData| <= INT_MAX
    requires k < TotalPackets(|fileData|)
    requires |header| == HEADER_SIZE
    ensures var p := CreatePacket(k, fileData);
      Deliveries(k, header, ServerStream(fileData, k)) ==
        [(k, p[HEADER_SIZE..])] + Deliveries(k + 1, Overlay(header, p), ServerStream(fileData, k + 1))
  {
    var p := CreatePacket(k, fileData);
    ServerStreamStep(fileData, k);
    var stream := ServerStream(fileData, k);
    assert Truncate(p, RECEIVE_BUFFER_SIZE) == p;
    ServerPacketReception(k, fileData, k, header);
    assert stream[0] == p && stream[1..] == ServerStream(fileData, k + 1) && stream[0..] == stream;
    DeliveriesAdvance(k, header, stream, 0, Delivered(p[HEADER_SIZE..]));
  }

  /** At the end of the stream the receiver takes nothing more. */
  lemma StopsAtEnd(fileData: seq<byte>, header: seq<byte>)
    requires |fileData| <= INT_MAX
    requires |header| == HEADER_SIZE
    ensures Deliveries(TotalPackets(|fileData|), header, ServerStream(fileData, TotalPackets(|fileData|))) == []
  {
    var k := TotalPackets(|fileData|);
    assert Truncate(END_BYTES, RECEIVE_BUFFER_SIZE) == END_BYTES;
    DeliveriesStep(k, header, END_BYTES, []);
    assert ServerStream(fileData, k) == [END_BYTES] + [];
  }

  /** One step of `FollowsStream`: agreement from `k + 1` on gives agreement from `k` on. */
  lemma FollowsStreamStep(fileData: seq<byte>, k: nat, header: seq<byte>)
    requires |fileData| <= INT_MAX
    requires k < TotalPackets(|fileData|)
    requires |header| == HEADER_SIZE
    requires Deliveries(k + 1, Overlay(header, CreatePacket(k, fileData)), ServerStream(fileData, k + 1)) == InOrderDeliveries(fileData, k + 1)
    ensures Deliveries(k, header, ServerStream(fileData, k)) == InOrderDeliveries(fileData, k)
  {
    TakesNextPacket(fileData, k, header);
    InOrderDeliveriesStep(fileData, k);
  }

  /** In step with a loss-free stream, the receiver queues exactly the in-order deliveries. */
  lemma {:induction false} FollowsStream(fileData: seq<byte>, k: nat, header: seq<byte>)
    requires |fileData| <= INT_MAX
    requires k <= TotalPackets(|fileData|)
    requires |header| == HEADER_SIZE
    ensures Deliveries(k, header, ServerStream(fileData, k)) == InOrderDeliveries(fileData, k)
    decreases TotalPackets(|fileData|) - k
  {
    if k == TotalPackets(|fileData|) {
      StopsAtEnd(fileData, header);
      assert InOrderDeliveries(fileData, k) == [];
    } else {
      FollowsStream(fileData, k + 1, Overlay(header, CreatePacket(k, fileData)));
      FollowsStreamStep(fileData, k, header);
    }
  }

  /**
   * Over a network that loses and reorders nothing, the console client
   * queues the whole file, packet by packet, before `END` stops it.
   */
  lemma ConsoleReceivesWholeFile(fileData: seq<byte>)
    requires |fileData| <= INT_MAX
    ensures Payloads(Deliveries(0, ZERO_HEADER, ServerStream(fileData, 0))) == fileData
  {
    FollowsStream(fileData, 0, ZERO_HEADER);
    InOrderReassembly(fileData);
  }

  /** How the receiver loop ended. */
  datatype LoopEnd = EndReceived | ReceiveCrashed | InboxExhausted

  /** Where the receiver loop stops on `inbox`: at `END`, at the crash, or when nothing more arrives. */
  function Ending(expectedSeq: int, header: seq<byte>, inbox: seq<seq<byte>>): LoopEnd
    requires |header| == HEADER_SIZE
    decreases |inbox|
  {
    if inbox == [] then InboxExhausted
    else
      var data := Truncate(inbox[0], RECEIVE_BUFFER_SIZE);
      match Receive(expectedSeq, header, data)
      case Finished => EndReceived
      case Crashed => ReceiveCrashed
      case Delivered(_) => Ending(expectedSeq + 1, Overlay(header, data), inbox[1..])
      case OutOfOrder => Ending(expectedSeq, Overlay(header, data), inbox[1..])
  }

  /** `Ending` at position `i` of `inbox`, given what the datagram there does. */
  lemma EndingAdvance(expectedSeq: int, header: seq<byte>, inbox: seq<seq<byte>>, i: nat, r: Reception)
    requires |header| == HEADER_SIZE && i < |inbox|
    requires r == Receive(expectedSeq, header, Truncate(inbox[i], RECEIVE_BUFFER_SIZE))
    ensures var next := Overlay(header, Truncate(inbox[i], RECEIVE_BUFFER_SIZE));
      && (r == Finished ==> Ending(expectedSeq, header, inbox[i..]) == EndReceived)
      && (r == Crashed ==> Ending(expectedSeq, header, inbox[i..]) == ReceiveCrashed)
      && (r.Delivered? ==> Ending(expectedSeq, header, inbox[i..]) == Ending(expectedSeq + 1, next, inbox[i + 1..]))
      && (r == OutOfOrder ==> Ending(expectedSeq, header, inbox[i..]) == Ending(expectedSeq, next, inbox[i + 1..]))
  {
    assert inbox[i..][0] == inbox[i];
    assert inbox[i..][1..] == inbox[i + 1..];
  }

  /** One packet of a loss-free stream does not stop the receiver; what comes after decides. */
  lemma EndingNextPacket(fileData: seq<byte>, k: nat, header: seq<byte>)
    requires |fileData| <= INT_MAX
    requires k < TotalPackets(|fileData|)
    requires |header| == HEADER_SIZE
    ensures Ending(k, header, ServerStream(fileData, k)) ==
      Ending(k + 1, Overlay(header, CreatePacket(k, fileData)), ServerStream(fileData, k + 1))
  {
    var stream := ServerStream(fileData, k);
    var p := CreatePacket(k, fileData);
    ServerStreamStep(fileData, k);
    assert Truncate(p, RECEIVE_BUFFER_SIZE) == p;
    ServerPacketReception(k, fileData, k, header);
    assert stream[0] == p && stream[1..] == ServerStream(fileData, k + 1) && stream[0..] == stream;
    EndingAdvance(k, header, stream, 0, Delivered(p[HEADER_SIZE..]));
  }

  /** A stream's `END` stops the receiver, whatever the buffer holds. */
  lemma EndingAtEnd(fileData: seq<byte>, header: seq<byte>)
    requires |fileData| <= INT_MAX
    requires |header| == HEADER_SIZE
    ensures Ending(TotalPackets(|fileData|), header, ServerStream(fileData, TotalPackets(|fileData|))) == EndReceived
  {
    var k := TotalPackets(|fileData|);
    var stream := ServerStream(fileData, k);
    assert stream == [END_BYTES];
    assert Truncate(END_BYTES, RECEIVE_BUFFER_SIZE) == END_BYTES;
    EndingAdvance(k, header, stream, 0, Finished);
    assert stream[0..] == stream;
  }

  /** In step with a loss-free stream, the receiver runs until the server's `END`. */
  lemma {:induction false} StreamEndsWithEnd(fileData: seq<byte>, k: nat, header: seq<byte>)
    requires |fileData| <= INT_MAX
    requires k <= TotalPackets(|fileData|)
    requires |header| == HEADER_SIZE
    ensures Ending(k, header, ServerStream(fileData, k)) == EndReceived
    decreases TotalPackets(|fileData|) - k
  {
    if k == TotalPackets(|fileData|) {
      EndingAtEnd(fileData, header);
    } else {
      var next := Overlay(header, CreatePacket(k, fileData));
      StreamEndsWithEnd(fileData, k + 1, next);
      EndingNextPacket(fileData, k, header);
    }
  }

  /** The endpoint the receiver holds after `d` arrives: a datagram from another port is adopted with its address. */
  function Adopt(ip: Option<Address>, port: int, d: Datagram): Option<Address> {
    if port != d.port then Some(d.source) else ip
  }

  /**
   * What the receiver sends back to `ip`/`port` for one datagram received as
   * `r` while it expected `expectedSeq`: `ACK:<expectedSeq>` for a delivery,
   * `ACK:<expectedSeq - 1>` for anything out of order, nothing otherwise.
   */
  function Ack(ip: Option<Address>, port: int, expectedSeq: int, r: Reception): seq<Outgoing> {
    if r.Delivered? then SendTo(ip, port, AckText(expectedSeq))
    else if r == OutOfOrder then SendTo(ip, port, AckText(expectedSeq - 1))
    else []
  }

  /**
   * The acknowledgements the receiver sends while it processes `inbox` from
   * the endpoint `ip`/`port` on, each to the endpoint just adopted; nothing
   * once `END` or the crash stops it.
   */
  function Acks(ip: Option<Address>, port: int, expectedSeq: int, header: seq<byte>, inbox: seq<Datagram>): seq<Outgoing>
    requires |header| == HEADER_SIZE
    decreases |inbox|
  {
    if inbox == [] then []
    else
      var d := inbox[0];
      var ip' := Adopt(ip, port, d);
      var data := Truncate(d.data, RECEIVE_BUFFER_SIZE);
      var r := Receive(expectedSeq, header, data);
      if r == Finished || r == Crashed then []
      else Ack(ip', d.port, expectedSeq, r) + Acks(ip', d.port, if r.Delivered? then expectedSeq + 1 else expectedSeq, Overlay(header, data), inbox[1..])
  }

  /** `Acks` at position `i` of `inbox`, given what the datagram there does. */
  lemma AcksAdvance(ip: Option<Address>, port: int, expectedSeq: int, header: seq<byte>, inbox: seq<Datagram>, i: nat, r: Reception)
    requires |header| == HEADER_SIZE && i < |inbox|
    requires r == Receive(expectedSeq, header, Truncate(inbox[i].data, RECEIVE_BUFFER_SIZE))
    ensures r == Finished || r == Crashed ==> Acks(ip, port, expectedSeq, header, inbox[i..]) == []
    ensures r.Delivered? || r == OutOfOrder ==>
      Acks(ip, port, expectedSeq, header, inbox[i..]) ==
      Ack(Adopt(ip, port, inbox[i]), inbox[i].port, expectedSeq, r) +
      Acks(Adopt(ip, port, inbox[i]), inbox[i].port, if r.Delivered? then expectedSeq + 1 else expectedSeq,
           Overlay(header, Truncate(inbox[i].data, RECEIVE_BUFFER_SIZE)), inbox[i + 1..])
  {
    assert inbox[i..][0] == inbox[i];
    assert inbox[i..][1..] == inbox[i + 1..];
  }

  /** One datagram's step of the acknowledgement account kept by the receiver loop. */
  lemma AcksAccount(ip: Option<Address>, port: int, expectedSeq: int, header: seq<byte>, inbox: seq<Datagram>, i: nat,
                    r: Reception, sent0: seq<Outgoing>, sent1: seq<Outgoing>, acks: seq<Outgoing>)
    requires |header| == HEADER_SIZE && i < |inbox|
    requires r == Receive(expectedSeq, header, Truncate(inbox[i].data, RECEIVE_BUFFER_SIZE))
    requires sent0 + Acks(ip, port, expectedSeq, header, inbox[i..]) == acks
    requires sent1 == sent0 + Ack(Adopt(ip, port, inbox[i]), inbox[i].port, expectedSeq, r)
    ensures r == Finished || r == Crashed ==> sent1 == acks
    ensures r.Delivered? || r == OutOfOrder ==>
      sent1 + Acks(Adopt(ip, port, inbox[i]), inbox[i].port, if r.Delivered? then expectedSeq + 1 else expectedSeq,
                   Overlay(header, Truncate(inbox[i].data, RECEIVE_BUFFER_SIZE)), inbox[i + 1..]) == acks
  {
    AcksAdvance(ip, port, expectedSeq, header, inbox, i, r);
    var ip' := Adopt(ip, port, inbox[i]);
    SeqAssoc(sent0, Ack(ip', inbox[i].port, expectedSeq, r),
             Acks(ip', inbox[i].port, if r.Delivered? then expectedSeq + 1 else expectedSeq,
                  Overlay(header, Truncate(inbox[i].data, RECEIVE_BUFFER_SIZE)), inbox[i + 1..]));
    if r == Finished || r == Crashed {
      assert sent1 == sent0 + [];
    }
  }

  /** One datagram's step of the queue account: the chunks queued and offered so far against `Deliveries`. */
  lemma QueueAccount(expectedSeq: int, header: seq<byte>, inbox: seq<seq<byte>>, i: nat, r: Reception,
                     queued: seq<(int, Chunk)>, nextQueued: seq<(int, Chunk)>, total: seq<(int, Chunk)>,
                     offered: seq<Chunk>, offered1: seq<Chunk>)
    requires |header| == HEADER_SIZE && i < |inbox|
    requires r == Receive(expectedSeq, header, Truncate(inbox[i], RECEIVE_BUFFER_SIZE))
    requires queued + Deliveries(expectedSeq, header, inbox[i..]) == total
    requires nextQueued == if r.Delivered? then queued + [(expectedSeq, r.chunk)] else queued
    requires offered1 == offered + Chunks(queued) + (if r.Delivered? then [r.chunk] else [])
    ensures offered1 == offered + Chunks(nextQueued)
    ensures r == Finished || r == Crashed ==> nextQueued == total
    ensures r.Delivered? || r == OutOfOrder ==>
      nextQueued + Deliveries(if r.Delivered? then expectedSeq + 1 else expectedSeq,
                              Overlay(header, Truncate(inbox[i], RECEIVE_BUFFER_SIZE)), inbox[i + 1..]) == total
  {
    DeliveriesAdvance(expectedSeq, header, inbox, i, r);
    match r {
      case Delivered(chunk) =>
        var rest := Deliveries(expectedSeq + 1, Overlay(header, Truncate(inbox[i], RECEIVE_BUFFER_SIZE)), inbox[i + 1..]);
        SeqAssoc(queued, [(expectedSeq, chunk)], rest);
        ChunksSnoc(queued, (expectedSeq, chunk));
        SeqAssoc(offered, Chunks(queued), [chunk]);
      case _ =>
        assert nextQueued == queued;
    }
  }

  /** One packet of a loss-free stream: acknowledged once, to the stream's endpoint, which the receiver now holds. */
  lemma AcksNextPacket(fileData: seq<byte>, k: nat, header: seq<byte>,
                       ip: Option<Address>, port: int, source: Address, streamPort: int)
    requires |fileData| <= INT_MAX
    requires k < TotalPackets(|fileData|)
    requires |header| == HEADER_SIZE
    requires port != streamPort || ip == Some(source)
    ensures Acks(ip, port, k, header, FromServer(source, streamPort, ServerStream(fileData, k))) ==
      [Outgoing(AckText(k), source, streamPort)] +
      Acks(Some(source), streamPort, k + 1, Overlay(header, CreatePacket(k, fileData)), FromServer(source, streamPort, ServerStream(fileData, k + 1)))
  {
    var inbox := FromServer(source, streamPort, ServerStream(fileData, k));
    var p := CreatePacket(k, fileData);
    FromServerStep(fileData, k, source, streamPort);
    assert inbox[0..] == inbox;
    assert Truncate(p, RECEIVE_BUFFER_SIZE) == p;
    ServerPacketReception(k, fileData, k, header);
    AcksAdvance(ip, port, k, header, inbox, 0, Delivered(p[HEADER_SIZE..]));
  }

  /** At a stream's `END` the receiver acknowledges nothing more. */
  lemma AcksAtEnd(fileData: seq<byte>, header: seq<byte>, ip: Option<Address>, port: int, source: Address, streamPort: int)
    requires |fileData| <= INT_MAX
    requires |header| == HEADER_SIZE
    ensures var n := TotalPackets(|fileData|);
      Acks(ip, port, n, header, FromServer(source, streamPort, ServerStream(fileData, n))) == []
  {
    var n := TotalPackets(|fileData|);
    var inbox := FromServer(source, streamPort, ServerStream(fileData, n));
    assert ServerStream(fileData, n) == [END_BYTES];
    assert inbox[0].data == END_BYTES && inbox[0..] == inbox;
    assert Truncate(END_BYTES, RECEIVE_BUFFER_SIZE) == END_BYTES;
    AcksAdvance(ip, port, n, header, inbox, 0, Finished);
  }

  /**
   * In step with a loss-free stream from one endpoint, the receiver adopts
   * that endpoint and acknowledges packets `k .. n-1`, each exactly once and
   * in order, then nothing after `END`.
   */
  lemma {:induction false} AcksOfStream(fileData: seq<byte>, k: nat, header: seq<byte>,
                                         ip: Option<Address>, port: int, source: Address, streamPort: int)
    requires |fileData| <= INT_MAX
    requires k <= TotalPackets(|fileData|)
    requires |header| == HEADER_SIZE
    requires port != streamPort || ip == Some(source)
    ensures Acks(ip, port, k, header, FromServer(source, streamPort, ServerStream(fileData, k)))
      == AckRange(source, streamPort, k, TotalPackets(|fileData|))
    decreases TotalPackets(|fileData|) - k
  {
    if k == TotalPackets(|fileData|) {
      AcksAtEnd(fileData, header, ip, port, source, streamPort);
    } else {
      var next := Overlay(header, CreatePacket(k, fileData));
      AcksOfStream(fileData, k + 1, next, Some(source), streamPort, source, streamPort);
      AcksNextPacket(fileData, k, header, ip, port, source, streamPort);
    }
  }

  // ---------------------------------------------------------------- controls

  /** The message a command line stands for after `toUpperCase()`; other lines are ignored. */
  function KeyMessage(line: string): (r: Option<string>)
    ensures r == Some("PAUSE") <==> line == "P" || line == "p"
    ensures r == Some("RESUME") <==> line == "R" || line == "r"
    ensures r == Some("SKIP:FAST") <==> line == "A" || line == "a"
    ensures r == Some("STOP") <==> line == "S" || line == "s"
    ensures r == None <==> line !in ["P", "p", "R", "r", "A", "a", "S", "s"]
  {
    var cmd := ToUpper(line);
    if cmd == "P" then Some("PAUSE")
    else if cmd == "R" then Some("RESUME")
    else if cmd == "A" then Some("SKIP:FAST")
    else if cmd == "S" then Some("STOP")
    else None
  }

  /**
   * The messages a run of command lines sends while a song plays: each
   * recognised line's message in order, up to and including the first `STOP`,
   * after which the loop has ended.
   */
  function ControlMessages(lines: seq<string>): (msgs: seq<string>)
    ensures forall i :: 0 <= i < |msgs| - 1 ==> msgs[i] != "STOP"
    ensures |msgs| <= |lines|
  {
    if lines == [] then []
    else match KeyMessage(lines[0])
      case None => ControlMessages(lines[1..])
      case Some(m) => if m == "STOP" then [m] else [m] + ControlMessages(lines[1..])
  }

  /** Splitting the lines: once a `STOP` has been sent, later lines send nothing. */
  lemma {:induction false} ControlMessagesAppend(a: seq<string>, b: seq<string>)
    ensures ControlMessages(a + b) ==
      if "STOP" in ControlMessages(a) then ControlMessages(a) else ControlMessages(a) + ControlMessages(b)
  {
    if a == [] {
      assert a + b == b;
    } else {
      assert (a + b)[0] == a[0];
      assert (a + b)[1..] == a[1..] + b;
      ControlMessagesAppend(a[1..], b);
    }
  }

  /**
   * One more line in the control loop's account: what it sends extends what
   * `ControlMessages` says for the lines before it, and the queue is empty
   * exactly when some line so far was `A`.
   */
  lemma ControlAccount(ip: Option<Address>, port: int, start: seq<Outgoing>, startQueue: seq<Chunk>, done: seq<string>, line: string,
                       sent0: seq<Outgoing>, queue0: seq<Chunk>, sent1: seq<Outgoing>, queue1: seq<Chunk>)
    requires "STOP" !in ControlMessages(done)
    requires sent0 == start + SendAll(ip, port, ControlMessages(done))
    requires queue0 == if "SKIP:FAST" in ControlMessages(done) then [] else startQueue
    requires sent1 == sent0 + (if KeyMessage(line).Some? then SendTo(ip, port, KeyMessage(line).value) else [])
    requires queue1 == if KeyMessage(line) == Some("SKIP:FAST") then [] else queue0
    ensures sent1 == start + SendAll(ip, port, ControlMessages(done + [line]))
    ensures queue1 == if "SKIP:FAST" in ControlMessages(done + [line]) then [] else startQueue
    ensures ("STOP" !in ControlMessages(done + [line])) == (KeyMessage(line) != Some("STOP"))
  {
    OneLine(ip, port, line);
    ControlMessagesAppend(done, [line]);
    SendAllAppend(ip, port, ControlMessages(done), ControlMessages([line]));
    SeqAssoc(start, SendAll(ip, port, ControlMessages(done)), SendAll(ip, port, ControlMessages([line])));
  }

  /** Once the lines read so far hold `STOP`, the lines after them change nothing. */
  lemma StoppedPrefix(done: seq<string>, rest: seq<string>)
    requires rest != [] ==> "STOP" in ControlMessages(done)
    ensures ControlMessages(done + rest) == ControlMessages(done)
  {
    ControlMessagesAppend(done, rest);
    if rest == [] {
      assert done + rest == done;
    }
  }

  /** A single line sends its own message, if it has one. */
  lemma OneLine(ip: Option<Address>, port: int, line: string)
    ensures SendAll(ip, port, ControlMessages([line])) ==
      if KeyMessage(line).Some? then SendTo(ip, port, KeyMessage(line).value) else []
    ensures "STOP" in ControlMessages([line]) <==> KeyMessage(line) == Some("STOP")
    ensures "SKIP:FAST" in ControlMessages([line]) <==> KeyMessage(line) == Some("SKIP:FAST")
  {
    assert [line][1..] == [];
    if KeyMessage(line).Some? {
      assert ControlMessages([line]) == [KeyMessage(line).value];
      assert [KeyMessage(line).value][1..] == [];
    }
  }

  // ---------------------------------------------------------------- client

  class ConsoleClient {
    /** The streaming endpoint control messages go to; unknown until a packet arrives. */
    var currentServerIP: Option<Address>
    var currentServerPort: int
    var isPlaying: bool
    /** Every control datagram sent so far, oldest first. */
    var sent: seq<Outgoing>
    const audioQueue: BoundedQueue

    ghost predicate Valid()
      reads this, audioQueue
    {
      audioQueue.Valid() && audioQueue.capacity == QUEUE_CAPACITY
    }

    constructor ()
      ensures Valid() && fresh(audioQueue)
      ensures currentServerIP == None && currentServerPort == 0 && !isPlaying
      ensures sent == [] && audioQueue.items == []
    {
      currentServerIP := None;
      currentServerPort := 0;
      isPlaying := false;
      sent := [];
      audioQueue := new BoundedQueue(QUEUE_CAPACITY);
    }

    /** `sendControlMessage`: sends to the current endpoint, and silently nothing while its address is unknown. */
    method SendControlMessage(text: string)
      modifies this
      ensures sent == old(sent) + SendTo(currentServerIP, currentServerPort, text)
      ensures currentServerIP == old(currentServerIP) && currentServerPort == old(currentServerPort)
      ensures isPlaying == old(isPlaying)
    {
      sent := sent + SendTo(currentServerIP, currentServerPort, text);
    }

    /**
     * One pass of the receiver loop: adopt the datagram's endpoint when its
     * port differs, then act on it as `Receive` says.
     */
    method ReceivePacket(expectedSeq: int, header: seq<byte>, d: Datagram)
      returns (nextSeq: int, nextHeader: seq<byte>, r: Reception)
      requires Valid() && |header| == HEADER_SIZE
      modifies this, audioQueue
      ensures Valid() && |nextHeader| == HEADER_SIZE && old(sent) <= sent
      ensures currentServerPort == d.port
      ensures currentServerIP == if old(currentServerPort) != d.port then Some(d.source) else old(currentServerIP)
      ensures r == Receive(expectedSeq, header, Truncate(d.data, RECEIVE_BUFFER_SIZE))
      ensures nextHeader == Overlay(header, Truncate(d.data, RECEIVE_BUFFER_SIZE))
      ensures isPlaying == (old(isPlaying) && r != Finished)
      ensures r.Delivered? ==>
        && audioQueue.items == (if |old(audioQueue.items)| < QUEUE_CAPACITY then old(audioQueue.items) + [r.chunk] else old(audioQueue.items))
        && sent == old(sent) + SendTo(currentServerIP, currentServerPort, AckText(expectedSeq))
        && nextSeq == expectedSeq + 1
      ensures r == OutOfOrder ==>
        && audioQueue.items == old(audioQueue.items)
        && sent == old(sent) + SendTo(currentServerIP, currentServerPort, AckText(expectedSeq - 1))
        && nextSeq == expectedSeq
      ensures (r == Finished || r == Crashed) ==>
        audioQueue.items == old(audioQueue.items) && sent == old(sent) && nextSeq == expectedSeq
      ensures audioQueue.offered == old(audioQueue.offered) + (if r.Delivered? then [r.chunk] else [])
      ensures sent == old(sent) + Ack(currentServerIP, currentServerPort, expectedSeq, r)
    {
      if currentServerPort != d.port {
        currentServerPort := d.port;
        currentServerIP := Some(d.source);
      }
      var data := Truncate(d.data, RECEIVE_BUFFER_SIZE);
      r := Receive(expectedSeq, header, data);
      nextHeader := Overlay(header, data);
      nextSeq := expectedSeq;
      match r {
        case Finished =>
          isPlaying := false;
        case Crashed =>
        case Delivered(chunk) =>
          var _ := audioQueue.Offer(chunk);
          SendControlMessage(AckText(expectedSeq));
          nextSeq := expectedSeq + 1;
        case OutOfOrder =>
          SendControlMessage(AckText(expectedSeq - 1));
      }
    }

    /**
     * One iteration of the receiver loop, with the ghost accounts of what has
     * been queued, offered, acknowledged and decided so far against what
     * `Deliveries`, `Acks` and `Ending` say for the whole inbox.
     */
    method ReceiveNext(expectedSeq: int, header: seq<byte>, inbox: seq<Datagram>, ghost datas: seq<seq<byte>>, i: nat,
                       ghost queued: seq<(int, Chunk)>, ghost total: seq<(int, Chunk)>, ghost offered: seq<Chunk>,
                       ghost acks: seq<Outgoing>, ghost ending: LoopEnd)
      returns (nextSeq: int, nextHeader: seq<byte>, stop: LoopEnd, ghost nextQueued: seq<(int, Chunk)>)
      requires Valid() && isPlaying && |header| == HEADER_SIZE
      requires i < |inbox| == |datas| && datas[i] == inbox[i].data
      requires queued + Deliveries(expectedSeq, header, datas[i..]) == total && expectedSeq == |queued|
      requires audioQueue.offered == offered + Chunks(queued)
      requires sent + Acks(currentServerIP, currentServerPort, expectedSeq, header, inbox[i..]) == acks
      requires Ending(expectedSeq, header, datas[i..]) == ending
      modifies this, audioQueue
      ensures Valid() && old(sent) <= sent && nextSeq == |nextQueued|
      ensures audioQueue.offered == offered + Chunks(nextQueued)
      ensures isPlaying <==> stop != EndReceived
      ensures stop != InboxExhausted ==> nextQueued == total && sent == acks && stop == ending
      ensures stop == InboxExhausted ==> (isPlaying && |nextHeader| == HEADER_SIZE &&
        nextQueued + Deliveries(nextSeq, nextHeader, datas[i + 1..]) == total &&
        sent + Acks(currentServerIP, currentServerPort, nextSeq, nextHeader, inbox[i + 1..]) == acks &&
        Ending(nextSeq, nextHeader, datas[i + 1..]) == ending)
    {
      ghost var ip, port, sent0, offered0 := currentServerIP, currentServerPort, sent, audioQueue.offered;
      var r;
      nextSeq, nextHeader, r := ReceivePacket(expectedSeq, header, inbox[i]);
      nextQueued := if r.Delivered? then queued + [(expectedSeq, r.chunk)] else queued;
      QueueAccount(expectedSeq, header, datas, i, r, queued, nextQueued, total, offered, audioQueue.offered);
      AcksAccount(ip, port, expectedSeq, header, inbox, i, r, sent0, sent, acks);
      EndingAdvance(expectedSeq, header, datas, i, r);
      stop := match r
        case Finished => EndReceived
        case Crashed => ReceiveCrashed
        case _ => InboxExhausted;
    }

    /**
     * `receiverGBNLoop` over the datagrams that arrive: starting from
     * sequence number 0 and a zeroed buffer, it queues what `Deliveries`
     * says and ends at `END`, at the crash, or when nothing more arrives.
     */
    method ReceiverGBNLoop(inbox: seq<Datagram>) returns (expectedSeq: int, ending: LoopEnd, ghost queued: seq<(int, Chunk)>)
      requires Valid() && isPlaying
      modifies this, audioQueue
      ensures Valid()
      ensures queued == Deliveries(0, ZERO_HEADER, seq(|inbox|, i requires 0 <= i < |inbox| => inbox[i].data))
      ensures audioQueue.offered == old(audioQueue.offered) + Chunks(queued)
      ensures sent == old(sent) + Acks(old(currentServerIP), old(currentServerPort), 0, ZERO_HEADER, inbox)
      ensures ending == Ending(0, ZERO_HEADER, seq(|inbox|, i requires 0 <= i < |inbox| => inbox[i].data))
      ensures expectedSeq == |queued|
      ensures isPlaying <==> ending != EndReceived
    {
      ghost var datas := seq(|inbox|, i requires 0 <= i < |inbox| => inbox[i].data);
      ghost var total := Deliveries(0, ZERO_HEADER, datas);
      ghost var acks := old(sent) + Acks(currentServerIP, currentServerPort, 0, ZERO_HEADER, inbox);
      ghost var finalEnding := Ending(0, ZERO_HEADER, datas);
      expectedSeq := 0;
      var header := ZERO_HEADER;
      var i := 0;
      queued := [];
      ending := InboxExhausted;
      assert inbox[i..] == inbox && datas[i..] == datas;
      assert audioQueue.offered == old(audioQueue.offered) + Chunks(queued);
      while i < |inbox|
        invariant Valid() && isPlaying && ending == InboxExhausted
        invariant 0 <= i <= |inbox| && |header| == HEADER_SIZE
        invariant queued + Deliveries(expectedSeq, header, datas[i..]) == total
        invariant audioQueue.offered == old(audioQueue.offered) + Chunks(queued)
        invariant sent + Acks(currentServerIP, currentServerPort, expectedSeq, header, inbox[i..]) == acks
        invariant Ending(expectedSeq, header, datas[i..]) == finalEnding
        invariant expectedSeq == |queued|
      {
        expectedSeq, header, ending, queued :=
          ReceiveNext(expectedSeq, header, inbox, datas, i, queued, total, old(audioQueue.offered), acks, finalEnding);
        if ending != InboxExhausted {
          return;
        }
        i := i + 1;
      }
      assert datas[i..] == [] && inbox[i..] == [];
    }

    /**
     * `playSong` after a successful search: remember the server's port, clear
     * the queue, start playing, send `PLAY:<song>` to the server itself, then
     * run the receiver.
     */
    method PlaySong(songName: string, host: Address, serverPort: int, inbox: seq<Datagram>)
      returns (expectedSeq: int, ending: LoopEnd, ghost queued: seq<(int, Chunk)>)
      requires Valid()
      modifies this, audioQueue
      ensures Valid()
      ensures sent == old(sent) + [Outgoing("PLAY:" + songName, host, serverPort)] +
                      Acks(old(currentServerIP), serverPort, 0, ZERO_HEADER, inbox)
      ensures queued == Deliveries(0, ZERO_HEADER, seq(|inbox|, i requires 0 <= i < |inbox| => inbox[i].data))
      ensures audioQueue.offered == old(audioQueue.offered) + Chunks(queued)
      ensures ending == Ending(0, ZERO_HEADER, seq(|inbox|, i requires 0 <= i < |inbox| => inbox[i].data))
      ensures expectedSeq == |queued|
      ensures isPlaying <==> ending != EndReceived
    {
      currentServerPort := serverPort;
      audioQueue.Clear();
      isPlaying := true;
      sent := sent + [Outgoing("PLAY:" + songName, host, serverPort)];
      expectedSeq, ending, queued := ReceiverGBNLoop(inbox);
    }

    /**
     * `controlLoop` over the lines typed while a song plays: it sends what
     * `ControlMessages` says and stops reading after the first `S`.
     */
    method ControlLoop(lines: seq<string>) returns (consumed: nat)
      requires Valid()
      modifies this, audioQueue
      ensures Valid()
      ensures currentServerIP == old(currentServerIP) && currentServerPort == old(currentServerPort)
      ensures old(isPlaying) ==> sent == old(sent) + SendAll(currentServerIP, currentServerPort, ControlMessages(lines))
      ensures !old(isPlaying) ==> sent == old(sent) && consumed == 0
      ensures isPlaying == (old(isPlaying) && "STOP" !in ControlMessages(lines))
      ensures audioQueue.items ==
        if old(isPlaying) && "SKIP:FAST" in ControlMessages(lines) then [] else old(audioQueue.items)
      ensures consumed <= |lines| && (consumed < |lines| ==> !isPlaying)
    {
      consumed := 0;
      while consumed < |lines| && isPlaying
        invariant Valid() && consumed <= |lines|
        invariant currentServerIP == old(currentServerIP) && currentServerPort == old(currentServerPort)
        invariant !old(isPlaying) ==> sent == old(sent) && consumed == 0 && !isPlaying
        invariant old(isPlaying) ==> sent == old(sent) + SendAll(currentServerIP, currentServerPort, ControlMessages(lines[..consumed]))
        invariant old(isPlaying) ==> isPlaying == ("STOP" !in ControlMessages(lines[..consumed]))
        invariant audioQueue.items ==
          if old(isPlaying) && "SKIP:FAST" in ControlMessages(lines[..consumed]) then [] else old(audioQueue.items)
      {
        var line := lines[consumed];
        ControlNext(old(sent), old(audioQueue.items), lines[..consumed], line);
        assert lines[..consumed + 1] == lines[..consumed] + [line];
        consumed := consumed + 1;
      }
      if old(isPlaying) {
        assert lines == lines[..consumed] + lines[consumed..];
        StoppedPrefix(lines[..consumed], lines[consumed..]);
      }
    }

    /**
     * One iteration of the control loop, with the account of what the lines
     * `done` before `line` have sent since `start`, and of whether any of
     * them has emptied the queue it held at `startQueue`.
     */
    method ControlNext(ghost start: seq<Outgoing>, ghost startQueue: seq<Chunk>, ghost done: seq<string>, line: string)
      requires Valid() && isPlaying
      requires sent == start + SendAll(currentServerIP, currentServerPort, ControlMessages(done))
      requires audioQueue.items == if "SKIP:FAST" in ControlMessages(done) then [] else startQueue
      requires "STOP" !in ControlMessages(done)
      modifies this, audioQueue
      ensures Valid()
      ensures currentServerIP == old(currentServerIP) && currentServerPort == old(currentServerPort)
      ensures sent == start + SendAll(currentServerIP, currentServerPort, ControlMessages(done + [line]))
      ensures isPlaying == ("STOP" !in ControlMessages(done + [line]))
      ensures audioQueue.items == if "SKIP:FAST" in ControlMessages(done + [line]) then [] else startQueue
    {
      ghost var sent0, queue0 := sent, audioQueue.items;
      ControlKey(line);
      ControlAccount(currentServerIP, currentServerPort, start, startQueue, done, line, sent0, queue0, sent, audioQueue.items);
    }

    /**
     * One line typed while a song plays: `P`, `R`, `A` and `S` (either case)
     * send their message; `A` also empties the queue and `S` stops playback.
     * A line read after playback ended is ignored.
     */
    method ControlKey(line: string)
      requires Valid()
      modifies this, audioQueue
      ensures Valid()
      ensures currentServerIP == old(currentServerIP) && currentServerPort == old(currentServerPort)
      ensures sent == old(sent) + (if old(isPlaying) && KeyMessage(line).Some?
        then SendTo(currentServerIP, currentServerPort, KeyMessage(line).value) else [])
      ensures audioQueue.items == if old(isPlaying) && KeyMessage(line) == Some("SKIP:FAST") then [] else old(audioQueue.items)
      ensures isPlaying == (old(isPlaying) && KeyMessage(line) != Some("STOP"))
    {
      if !isPlaying {
        return;
      }
      var m := KeyMessage(line);
      if m.Some? {
        SendControlMessage(m.value);
        if m.value == "SKIP:FAST" {
          audioQueue.Clear();
        } else if m.value == "STOP" {
          isPlaying := false;
        }
      }
    }
  }
}
