/**
 * The graphical client (`MusicClientGUI`): the same in-order receiver as the
 * console client, plus a paused drain, a resynchronisation sub-state after
 * Skip/Rewind, the button handlers, the WAV `fmt ` fields the player reads
 * from the first chunk, and the playback clock.
 *
 * What one datagram does is the pure function `GuiReceive`, whose skipping
 * logic is `ResyncStep`; `GuiDeliveries` folds it over a sequence of
 * datagrams. The `GuiClient` class performs the same steps on its fields.
 */
module MusicClientGUI {
  import opened Wrappers
  import opened Bytes
  import opened JavaText
  import opened Wire
  import opened AudioQueue

  /** `SERVER_HOST`, the address every stream is requested from. */
  const SERVER_HOST: Address := Address("127.0.0.1")
  /** Capacity of the graphical client's audio queue. */
  const QUEUE_CAPACITY: nat := 500
  /** A distance from `expectedSeq` above this while skipping is taken as the server's jump. */
  const JUMP_THRESHOLD: int := 10
  /** At most this many packets are dropped while waiting for the jump. */
  const MAX_SKIP_DISCARDS: int := 20
  /** Bytes of a canonical RIFF/WAVE header up to and including `bitsPerSample`. */
  const WAV_FMT_END: nat := 36

  // ---------------------------------------------------------------- resynchronisation

  /** The receiver loop's locals `expectedSeq` and `packetsSinceSkip`, with the `isSkipping` flag. */
  datatype Resync = Resync(expectedSeq: int, isSkipping: bool, packetsSinceSkip: int)

  /** What the loop keeps true: the counter runs only while skipping and never passes 20. */
  predicate ResyncInvariant(r: Resync) {
    && IsInt32(r.expectedSeq)
    && 0 <= r.packetsSinceSkip <= MAX_SKIP_DISCARDS
    && (!r.isSkipping ==> r.packetsSinceSkip == 0)
  }

  /**
   * The skipping check for a data packet carrying `seqNum`: the new state,
   * and whether the packet goes on to the in-order check (`false`: dropped).
   */
  function ResyncStep(r: Resync, seqNum: int): (res: (Resync, bool))
    requires IsInt32(r.expectedSeq) && IsInt32(seqNum)
    ensures !r.isSkipping ==> res == (r, true)
    ensures r.isSkipping && res.1 ==> res.0 == Resync(seqNum, false, 0)
    ensures !res.1 ==> (r.isSkipping && res.0 == r.(packetsSinceSkip := r.packetsSinceSkip + 1)
      && r.packetsSinceSkip + 1 <= MAX_SKIP_DISCARDS)
    ensures r.isSkipping && JavaAbs(WrapInt32(seqNum - r.expectedSeq)) > JUMP_THRESHOLD ==> res.1
    ensures r.isSkipping && r.packetsSinceSkip + 1 > MAX_SKIP_DISCARDS ==> res.1
    ensures (r.isSkipping && JavaAbs(WrapInt32(seqNum - r.expectedSeq)) <= JUMP_THRESHOLD
      && r.packetsSinceSkip + 1 <= MAX_SKIP_DISCARDS) ==> !res.1
    ensures IsInt32(res.0.expectedSeq)
    ensures ResyncInvariant(r) ==> ResyncInvariant(res.0)
  {
    if !r.isSkipping then (r, true)
    else if JavaAbs(WrapInt32(seqNum - r.expectedSeq)) > JUMP_THRESHOLD then (Resync(seqNum, false, 0), true)
    else if r.packetsSinceSkip + 1 > MAX_SKIP_DISCARDS then (Resync(seqNum, false, 0), true)
    else (r.(packetsSinceSkip := r.packetsSinceSkip + 1), false)
  }

  /**
   * For non-negative sequence numbers the subtraction cannot overflow, so the
   * jump test is the plain distance test.
   */
  lemma JumpIsDistance(seqNum: int, expectedSeq: int)
    requires 0 <= seqNum <= INT_MAX && 0 <= expectedSeq <= INT_MAX
    ensures JavaAbs(WrapInt32(seqNum - expectedSeq)) > JUMP_THRESHOLD <==>
      seqNum - expectedSeq > JUMP_THRESHOLD || expectedSeq - seqNum > JUMP_THRESHOLD
  {
  }

  /** How many of `seqNums`, from the first on, are dropped in a row by the skipping check. */
  function LeadingDiscards(r: Resync, seqNums: seq<int>): nat
    requires IsInt32(r.expectedSeq)
    requires forall i :: 0 <= i < |seqNums| ==> IsInt32(seqNums[i])
    decreases |seqNums|
  {
    if seqNums == [] then 0
    else
      var (next, passes) := ResyncStep(r, seqNums[0]);
      if passes then 0 else 1 + LeadingDiscards(next, seqNums[1..])
  }

  /**
   * The safety valve: whatever the server sends, one skip drops at most 20
   * packets (fewer when the counter already ran), so a packet gets through.
   */
  lemma {:induction false} AtMostTwentyDiscards(r: Resync, seqNums: seq<int>)
    requires ResyncInvariant(r)
    requires forall i :: 0 <= i < |seqNums| ==> IsInt32(seqNums[i])
    ensures LeadingDiscards(r, seqNums) <= MAX_SKIP_DISCARDS - r.packetsSinceSkip
    ensures |seqNums| > MAX_SKIP_DISCARDS - r.packetsSinceSkip ==> LeadingDiscards(r, seqNums) < |seqNums|
    decreases |seqNums|
  {
    if seqNums != [] {
      var (next, passes) := ResyncStep(r, seqNums[0]);
      if !passes {
        AtMostTwentyDiscards(next, seqNums[1..]);
      }
    }
  }

  /**
   * The lower bound beside `AtMostTwentyDiscards`: while every packet stays
   * within ten of `expectedSeq`, the skipping check drops exactly as many as
   * the counter has left before 20, then lets the next one through.
   */
  lemma {:induction false} ExactlyTwentyDiscards(r: Resync, seqNums: seq<int>)
    requires ResyncInvariant(r) && r.isSkipping
    requires forall i :: 0 <= i < |seqNums| ==> IsInt32(seqNums[i])
    requires forall i :: 0 <= i < |seqNums| ==> JavaAbs(WrapInt32(seqNums[i] - r.expectedSeq)) <= JUMP_THRESHOLD
    ensures LeadingDiscards(r, seqNums) == Min(|seqNums|, MAX_SKIP_DISCARDS - r.packetsSinceSkip)
    decreases |seqNums|
  {
    if seqNums != [] {
      var (next, passes) := ResyncStep(r, seqNums[0]);
      if !passes {
        assert forall i :: 0 <= i < |seqNums[1..]| ==> seqNums[1..][i] == seqNums[i + 1];
        ExactlyTwentyDiscards(next, seqNums[1..]);
      }
    }
  }

  // ---------------------------------------------------------------- reception

  /** What the receiver does with one datagram. */
  datatype GuiReception =
    | Drained                            // paused: read and thrown away
    | Ignored                            // a late `LIST...` or `FOUND...` reply
    | Finished                           // the exact text `END`
    | TooShort                           // four bytes or fewer: no payload
    | Discarded                          // dropped while waiting for the jump after a skip
    | Delivered(seqNum: int, chunk: Chunk)  // queued and acknowledged
    | OutOfOrder                         // the last in-order packet is acknowledged again

  /**
   * One pass of `receiverLoop` over the received bytes `data` (already cut to
   * the buffer): the new receiver state and what happened to the datagram.
   */
  function GuiReceive(isPaused: bool, r: Resync, data: seq<byte>): (res: (Resync, GuiReception))
    requires IsInt32(r.expectedSeq)
    ensures IsInt32(res.0.expectedSeq)
    ensures isPaused ==> res == (r, Drained)
    ensures !isPaused && (StartsWithText(data, "LIST") || StartsWithText(data, "FOUND")) ==> res == (r, Ignored)
    ensures res.1 == Finished <==> !isPaused && data == END_BYTES
    ensures res.1 == TooShort ==> |data| <= HEADER_SIZE && res.0 == r
    ensures res.1.Delivered? ==>
      && |data| > HEADER_SIZE && res.1.seqNum == SeqNumOf(data) && res.1.chunk == data[HEADER_SIZE..]
      && res.0.expectedSeq == WrapInt32(res.1.seqNum + 1) && !res.0.isSkipping
      && (r.isSkipping ==> res.0.packetsSinceSkip == 0)
      && (!r.isSkipping ==> res.1.seqNum == r.expectedSeq && res.0 == r.(expectedSeq := WrapInt32(r.expectedSeq + 1)))
    ensures res.1 == OutOfOrder ==> |data| > HEADER_SIZE && res.0 == r && !r.isSkipping && SeqNumOf(data) != r.expectedSeq
    ensures res.1 == Discarded ==> res.0 == r.(packetsSinceSkip := r.packetsSinceSkip + 1)
    ensures ResyncInvariant(r) ==> ResyncInvariant(res.0)
    ensures !isPaused && !StartsWithText(data, "LIST") && !StartsWithText(data, "FOUND") && data != END_BYTES ==>
      && (|data| <= HEADER_SIZE ==> res == (r, TooShort))
      && (|data| > HEADER_SIZE && !r.isSkipping ==>
            (res.1.Delivered? <==> SeqNumOf(data) == r.expectedSeq) && (!res.1.Delivered? ==> res == (r, OutOfOrder)))
      && (|data| > HEADER_SIZE && r.isSkipping ==>
            (res.1 == Discarded <==> !ResyncStep(r, SeqNumOf(data)).1)
            && (ResyncStep(r, SeqNumOf(data)).1 ==> res.1 == Delivered(SeqNumOf(data), data[HEADER_SIZE..])))
  {
    if isPaused then (r, Drained)
    else if StartsWithText(data, "LIST") || StartsWithText(data, "FOUND") then (r, Ignored)
    else if data == END_BYTES then (r, Finished)
    else if |data| <= HEADER_SIZE then (r, TooShort)
    else
      var seqNum := SeqNumOf(data);
      var (s, passes) := ResyncStep(r, seqNum);
      if !passes then (s, Discarded)
      else if seqNum == s.expectedSeq then (s.(expectedSeq := WrapInt32(seqNum + 1)), Delivered(seqNum, data[HEADER_SIZE..]))
      else (s, OutOfOrder)
  }

  /** The server's packet `k`, outside a skip: delivered exactly when it is the expected one. */
  lemma GuiServerPacket(k: int, fileData: seq<byte>, r: Resync)
    requires |fileData| <= INT_MAX
    requires 0 <= k < TotalPackets(|fileData|)
    requires ResyncInvariant(r) && !r.isSkipping
    ensures var p := CreatePacket(k, fileData);
      GuiReceive(false, r, p) == if k == r.expectedSeq then (r.(expectedSeq := k + 1), Delivered(k, p[HEADER_SIZE..])) else (r, OutOfOrder)
  {
    DataPacketIsNotEnd(k, fileData);
    DataPacketIsNotDiscovery(k, fileData);
    TotalPacketsBound(|fileData|);
  }

  /**
   * After Skip or Rewind, the first packet from the server's new position
   * (more than ten away) is taken at once: the receiver snaps to it, leaves
   * the skipping state and delivers it.
   */
  lemma SkipResyncsToServer(k: int, fileData: seq<byte>, r: Resync)
    requires |fileData| <= INT_MAX
    requires 0 <= k < TotalPackets(|fileData|)
    requires ResyncInvariant(r) && r.isSkipping && r.expectedSeq >= 0
    requires k - r.expectedSeq > JUMP_THRESHOLD || r.expectedSeq - k > JUMP_THRESHOLD
    ensures var p := CreatePacket(k, fileData);
      GuiReceive(false, r, p) == (Resync(k + 1, false, 0), Delivered(k, p[HEADER_SIZE..]))
  {
    DataPacketIsNotEnd(k, fileData);
    DataPacketIsNotDiscovery(k, fileData);
    TotalPacketsBound(|fileData|);
    JumpIsDistance(k, r.expectedSeq);
  }

  /** The chunks queued, with their sequence numbers, while the loop processes `inbox`; it stops at `END`. */
  function GuiDeliveries(isPaused: bool, r: Resync, inbox: seq<seq<byte>>): seq<(int, Chunk)>
    requires IsInt32(r.expectedSeq)
    decreases |inbox|
  {
    if inbox == [] then []
    else
      var (next, g) := GuiReceive(isPaused, r, Truncate(inbox[0], RECEIVE_BUFFER_SIZE));
      match g
      case Finished => []
      case Delivered(seqNum, chunk) => [(seqNum, chunk)] + GuiDeliveries(isPaused, next, inbox[1..])
      case _ => GuiDeliveries(isPaused, next, inbox[1..])
  }

  /** One step of `GuiDeliveries`, for the receiver loop. */
  lemma GuiDeliveriesStep(isPaused: bool, r: Resync, data: seq<byte>, rest: seq<seq<byte>>)
    requires IsInt32(r.expectedSeq)
    ensures var (next, g) := GuiReceive(isPaused, r, Truncate(data, RECEIVE_BUFFER_SIZE));
      GuiDeliveries(isPaused, r, [data] + rest) ==
        match g
        case Finished => []
        case Delivered(seqNum, chunk) => [(seqNum, chunk)] + GuiDeliveries(isPaused, next, rest)
        case _ => GuiDeliveries(isPaused, next, rest)
  {
    assert ([data] + rest)[1..] == rest;
  }

  /** `GuiDeliveriesStep` at position `i` of `inbox`, given what the datagram there does. */
  lemma GuiDeliveriesAdvance(isPaused: bool, r: Resync, inbox: seq<seq<byte>>, i: nat, next: Resync, g: GuiReception)
    requires IsInt32(r.expectedSeq) && i < |inbox|
    requires (next, g) == GuiReceive(isPaused, r, Truncate(inbox[i], RECEIVE_BUFFER_SIZE))
    ensures g.Delivered? ==> GuiDeliveries(isPaused, r, inbox[i..]) == [(g.seqNum, g.chunk)] + GuiDeliveries(isPaused, next, inbox[i + 1..])
    ensures g == Finished ==> GuiDeliveries(isPaused, r, inbox[i..]) == []
    ensures !g.Delivered? && g != Finished ==> GuiDeliveries(isPaused, r, inbox[i..]) == GuiDeliveries(isPaused, next, inbox[i + 1..])
  {
    assert inbox[i..] == [inbox[i]] + inbox[i + 1..];
    GuiDeliveriesStep(isPaused, r, inbox[i], inbox[i + 1..]);
  }

  /** The receiver's ghost account: what is queued, then what `rest` will deliver, makes up `total`. */
  ghost predicate GuiAccount(isPaused: bool, r: Resync, rest: seq<seq<byte>>, queued: seq<(int, Chunk)>, total: seq<(int, Chunk)>) {
    IsInt32(r.expectedSeq) && queued + GuiDeliveries(isPaused, r, rest) == total
  }

  /** The account after datagram `i` of `inbox` has been handled. */
  lemma GuiAccountAdvance(isPaused: bool, r: Resync, inbox: seq<seq<byte>>, i: nat, next: Resync, g: GuiReception,
                          queued: seq<(int, Chunk)>, total: seq<(int, Chunk)>)
    requires IsInt32(r.expectedSeq) && i < |inbox|
    requires (next, g) == GuiReceive(isPaused, r, Truncate(inbox[i], RECEIVE_BUFFER_SIZE))
    ensures GuiAccount(isPaused, r, inbox[i..], queued, total) && g == Finished ==> queued == total
    ensures GuiAccount(isPaused, r, inbox[i..], queued, total) && g != Finished ==>
      GuiAccount(isPaused, next, inbox[i + 1..], if g.Delivered? then queued + [(g.seqNum, g.chunk)] else queued, total)
  {
    GuiDeliveriesAdvance(isPaused, r, inbox, i, next, g);
    if g.Delivered? {
      var rest := GuiDeliveries(isPaused, next, inbox[i + 1..]);
      assert queued + ([(g.seqNum, g.chunk)] + rest) == (queued + [(g.seqNum, g.chunk)]) + rest;
    }
  }

  /** While paused, nothing at all is queued, whatever arrives. */
  lemma {:induction false} PausedQueuesNothing(r: Resync, inbox: seq<seq<byte>>)
    requires IsInt32(r.expectedSeq)
    ensures GuiDeliveries(true, r, inbox) == []
    decreases |inbox|
  {
    if inbox != [] {
      PausedQueuesNothing(r, inbox[1..]);
    }
  }

  /** The port the loop replies to after datagram `d`: the datagram's own, unless paused. */
  function ReplyPort(isPaused: bool, port: int, d: Datagram): int {
    if isPaused then port else d.port
  }

  /**
   * What the loop sends back for one datagram handled as `g` while it
   * expected `r.expectedSeq`: `ACK:<seqNum>` for a delivered packet,
   * `ACK:<expectedSeq - 1>` for an out-of-order one, nothing otherwise.
   */
  function GuiAck(r: Resync, ip: Option<Address>, port: int, g: GuiReception): seq<Outgoing> {
    if g.Delivered? then SendTo(ip, port, AckText(g.seqNum))
    else if g == OutOfOrder then SendTo(ip, port, AckText(WrapInt32(r.expectedSeq - 1)))
    else []
  }

  /**
   * The acknowledgements the loop sends while it processes `inbox`, to the
   * address `ip` and the port it adopts from each datagram; nothing after `END`.
   */
  function GuiAcks(isPaused: bool, r: Resync, ip: Option<Address>, port: int, inbox: seq<Datagram>): seq<Outgoing>
    requires IsInt32(r.expectedSeq)
    decreases |inbox|
  {
    if inbox == [] then []
    else
      var port' := ReplyPort(isPaused, port, inbox[0]);
      var (next, g) := GuiReceive(isPaused, r, Truncate(inbox[0].data, RECEIVE_BUFFER_SIZE));
      if g == Finished then [] else GuiAck(r, ip, port', g) + GuiAcks(isPaused, next, ip, port', inbox[1..])
  }

  /** Whether the loop meets `END` (and so clears `isPlaying`) while it processes `inbox`. */
  function GuiEnds(isPaused: bool, r: Resync, inbox: seq<seq<byte>>): bool
    requires IsInt32(r.expectedSeq)
    decreases |inbox|
  {
    if inbox == [] then false
    else
      var (next, g) := GuiReceive(isPaused, r, Truncate(inbox[0], RECEIVE_BUFFER_SIZE));
      g == Finished || GuiEnds(isPaused, next, inbox[1..])
  }

  /** The sequence number of the last delivery in `queued`, or `prev` when there is none. */
  function LastSeqNum(prev: int, queued: seq<(int, Chunk)>): int {
    if queued == [] then prev else queued[|queued| - 1].0
  }

  /** `GuiEnds` at position `i` of `inbox`, given what the datagram there does. */
  lemma GuiEndsAdvance(isPaused: bool, r: Resync, inbox: seq<seq<byte>>, i: nat, next: Resync, g: GuiReception)
    requires IsInt32(r.expectedSeq) && i < |inbox|
    requires (next, g) == GuiReceive(isPaused, r, Truncate(inbox[i], RECEIVE_BUFFER_SIZE))
    ensures g == Finished ==> GuiEnds(isPaused, r, inbox[i..])
    ensures g != Finished ==> GuiEnds(isPaused, r, inbox[i..]) == GuiEnds(isPaused, next, inbox[i + 1..])
  {
    assert inbox[i..][0] == inbox[i];
    assert inbox[i..][1..] == inbox[i + 1..];
  }

  /** `GuiAcks` at position `i` of `inbox`, given what the datagram there does. */
  lemma GuiAcksAdvance(isPaused: bool, r: Resync, ip: Option<Address>, port: int, inbox: seq<Datagram>, i: nat,
                       next: Resync, g: GuiReception)
    requires IsInt32(r.expectedSeq) && i < |inbox|
    requires (next, g) == GuiReceive(isPaused, r, Truncate(inbox[i].data, RECEIVE_BUFFER_SIZE))
    ensures g == Finished ==> GuiAcks(isPaused, r, ip, port, inbox[i..]) == []
    ensures g != Finished ==>
      GuiAcks(isPaused, r, ip, port, inbox[i..]) ==
      GuiAck(r, ip, ReplyPort(isPaused, port, inbox[i]), g) + GuiAcks(isPaused, next, ip, ReplyPort(isPaused, port, inbox[i]), inbox[i + 1..])
  {
    assert inbox[i..][0] == inbox[i];
    assert inbox[i..][1..] == inbox[i + 1..];
  }

  /** One datagram's step of the acknowledgement account kept by the receiver loop. */
  lemma GuiAcksAccount(isPaused: bool, r: Resync, ip: Option<Address>, port: int, inbox: seq<Datagram>, i: nat,
                       next: Resync, g: GuiReception, sent0: seq<Outgoing>, sent1: seq<Outgoing>, acks: seq<Outgoing>)
    requires IsInt32(r.expectedSeq) && i < |inbox|
    requires (next, g) == GuiReceive(isPaused, r, Truncate(inbox[i].data, RECEIVE_BUFFER_SIZE))
    requires sent0 + GuiAcks(isPaused, r, ip, port, inbox[i..]) == acks
    requires sent1 == sent0 + GuiAck(r, ip, ReplyPort(isPaused, port, inbox[i]), g)
    ensures g == Finished ==> sent1 == acks
    ensures g != Finished ==> sent1 + GuiAcks(isPaused, next, ip, ReplyPort(isPaused, port, inbox[i]), inbox[i + 1..]) == acks
  {
    GuiAcksAdvance(isPaused, r, ip, port, inbox, i, next, g);
    var port' := ReplyPort(isPaused, port, inbox[i]);
    SeqAssoc(sent0, GuiAck(r, ip, port', g), GuiAcks(isPaused, next, ip, port', inbox[i + 1..]));
    if g == Finished {
      assert sent1 == sent0 + [];
    }
  }

  /** One datagram's step of the offer account: the queue is offered exactly the delivered chunks. */
  lemma GuiOfferAccount(g: GuiReception, queued: seq<(int, Chunk)>, offered: seq<Chunk>, offered1: seq<Chunk>)
    requires offered1 == offered + Chunks(queued) + (if g.Delivered? then [g.chunk] else [])
    ensures offered1 == offered + Chunks(if g.Delivered? then queued + [(g.seqNum, g.chunk)] else queued)
  {
    if g.Delivered? {
      ChunksSnoc(queued, (g.seqNum, g.chunk));
      SeqAssoc(offered, Chunks(queued), [g.chunk]);
    }
  }

  /**
   * The receiver loop's three ghost accounts for the datagrams `inbox` (with
   * contents `datas`) still to come: queued chunks, acknowledgements sent
   * and whether `END` is met, against their totals for the whole inbox.
   */
  ghost predicate GuiLoopAccount(isPaused: bool, r: Resync, ip: Option<Address>, port: int, inbox: seq<Datagram>, datas: seq<seq<byte>>,
                                 queued: seq<(int, Chunk)>, total: seq<(int, Chunk)>, sent: seq<Outgoing>, acks: seq<Outgoing>, ends: bool)
  {
    && GuiAccount(isPaused, r, datas, queued, total)
    && sent + GuiAcks(isPaused, r, ip, port, inbox) == acks
    && GuiEnds(isPaused, r, datas) == ends
  }

  /** Before the first datagram, each account holds with nothing done yet. */
  lemma GuiLoopStart(isPaused: bool, r: Resync, ip: Option<Address>, port: int, inbox: seq<Datagram>, datas: seq<seq<byte>>,
                     sent: seq<Outgoing>)
    requires IsInt32(r.expectedSeq)
    ensures GuiLoopAccount(isPaused, r, ip, port, inbox, datas, [], GuiDeliveries(isPaused, r, datas),
                           sent, sent + GuiAcks(isPaused, r, ip, port, inbox), GuiEnds(isPaused, r, datas))
  {
    assert [] + GuiDeliveries(isPaused, r, datas) == GuiDeliveries(isPaused, r, datas);
  }

  /** When no datagram is left, every account is settled and `END` was not met. */
  lemma GuiLoopDone(isPaused: bool, r: Resync, ip: Option<Address>, port: int,
                    queued: seq<(int, Chunk)>, total: seq<(int, Chunk)>, sent: seq<Outgoing>, acks: seq<Outgoing>, ends: bool)
    requires GuiLoopAccount(isPaused, r, ip, port, [], [], queued, total, sent, acks, ends)
    ensures queued == total && sent == acks && !ends
  {
    assert queued + [] == queued && sent + [] == sent;
  }

  /** While paused, no acknowledgement at all is sent, whatever arrives. */
  lemma {:induction false} PausedSendsNothing(r: Resync, ip: Option<Address>, port: int, inbox: seq<Datagram>)
    requires IsInt32(r.expectedSeq)
    ensures GuiAcks(true, r, ip, port, inbox) == []
    decreases |inbox|
  {
    if inbox != [] {
      PausedSendsNothing(r, ip, port, inbox[1..]);
    }
  }

  /** While paused, even `END` is drained: the loop never stops by itself. */
  lemma {:induction false} PausedNeverEnds(r: Resync, inbox: seq<seq<byte>>)
    requires IsInt32(r.expectedSeq)
    ensures !GuiEnds(true, r, inbox)
    decreases |inbox|
  {
    if inbox != [] {
      PausedNeverEnds(r, inbox[1..]);
    }
  }

  /** The graphical client in step with the server takes packet `k` and moves on to `k + 1`. */
  lemma GuiTakesNextPacket(fileData: seq<byte>, k: nat)
    requires |fileData| <= INT_MAX
    requires k < TotalPackets(|fileData|)
    ensures GuiDeliveries(false, Resync(k, false, 0), ServerStream(fileData, k)) ==
      [(k, CreatePacket(k, fileData)[HEADER_SIZE..])] + GuiDeliveries(false, Resync(k + 1, false, 0), ServerStream(fileData, k + 1))
  {
    TotalPacketsBound(|fileData|);
    var r := Resync(k, false, 0);
    var p := CreatePacket(k, fileData);
    ServerStreamStep(fileData, k);
    assert Truncate(p, RECEIVE_BUFFER_SIZE) == p;
    GuiServerPacket(k, fileData, r);
    var stream := ServerStream(fileData, k);
    assert stream[0] == p && stream[1..] == ServerStream(fileData, k + 1) && stream[0..] == stream;
    GuiDeliveriesAdvance(false, r, stream, 0, Resync(k + 1, false, 0), Delivered(k, p[HEADER_SIZE..]));
  }

  /** At the end of the stream the graphical client takes nothing more. */
  lemma GuiStopsAtEnd(fileData: seq<byte>)
    requires |fileData| <= INT_MAX
    ensures GuiDeliveries(false, Resync(TotalPackets(|fileData|), false, 0), ServerStream(fileData, TotalPackets(|fileData|))) == []
  {
    TotalPacketsBound(|fileData|);
    var k := TotalPackets(|fileData|);
    assert Truncate(END_BYTES, RECEIVE_BUFFER_SIZE) == END_BYTES;
    GuiDeliveriesStep(false, Resync(k, false, 0), END_BYTES, []);
    assert ServerStream(fileData, k) == [END_BYTES] + [];
  }

  /** From packet `k` on, the graphical client in step queues exactly the in-order deliveries. */
  ghost predicate GuiInStep(fileData: seq<byte>, k: nat)
    requires |fileData| <= INT_MAX
    requires k <= TotalPackets(|fileData|)
  {
    TotalPacketsBound(|fileData|);
    GuiDeliveries(false, Resync(k, false, 0), ServerStream(fileData, k)) == InOrderDeliveries(fileData, k)
  }

  /** The last step of `GuiFollowsStream`: at the end both sides are empty. */
  lemma GuiFollowsStreamEnd(fileData: seq<byte>, k: nat)
    requires |fileData| <= INT_MAX
    requires k <= TotalPackets(|fileData|)
    ensures k == TotalPackets(|fileData|) ==> GuiInStep(fileData, k)
  {
    if k == TotalPackets(|fileData|) {
      GuiStopsAtEnd(fileData);
      InOrderDeliveriesEnd(fileData);
    }
  }

  /** One step of `GuiFollowsStream`: agreement from `k + 1` on gives agreement from `k` on. */
  lemma GuiFollowsStreamStep(fileData: seq<byte>, k: nat)
    requires |fileData| <= INT_MAX
    requires k < TotalPackets(|fileData|)
    ensures GuiInStep(fileData, k + 1) ==> GuiInStep(fileData, k)
  {
    GuiTakesNextPacket(fileData, k);
    InOrderDeliveriesStep(fileData, k);
  }

  /** In step with a loss-free stream, the graphical client queues exactly the in-order deliveries. */
  lemma {:induction false} GuiFollowsStream(fileData: seq<byte>, k: nat)
    requires |fileData| <= INT_MAX
    requires k <= TotalPackets(|fileData|)
    ensures GuiInStep(fileData, k)
    decreases TotalPackets(|fileData|) - k
  {
    GuiFollowsStreamEnd(fileData, k);
    if k < TotalPackets(|fileData|) {
      GuiFollowsStream(fileData, k + 1);
      GuiFollowsStreamStep(fileData, k);
    }
  }

  /** Over a network that loses and reorders nothing, the graphical client queues the whole file. */
  lemma GuiReceivesWholeFile(fileData: seq<byte>)
    requires |fileData| <= INT_MAX
    ensures Payloads(GuiDeliveries(false, Resync(0, false, 0), ServerStream(fileData, 0))) == fileData
  {
    GuiFollowsStream(fileData, 0);
    InOrderReassembly(fileData);
  }

  /** A delivery at the head of `inbox`, while not paused: acknowledged to the datagram's own port. */
  lemma GuiAcksDelivered(r: Resync, ip: Option<Address>, port: int, inbox: seq<Datagram>, next: Resync, g: GuiReception)
    requires IsInt32(r.expectedSeq) && inbox != [] && g.Delivered?
    requires (next, g) == GuiReceive(false, r, Truncate(inbox[0].data, RECEIVE_BUFFER_SIZE))
    ensures GuiAcks(false, r, ip, port, inbox) ==
      SendTo(ip, inbox[0].port, AckText(g.seqNum)) + GuiAcks(false, next, ip, inbox[0].port, inbox[1..])
  {
    GuiAcksAdvance(false, r, ip, port, inbox, 0, next, g);
    assert inbox[0..] == inbox;
  }

  /** One packet of a loss-free stream: acknowledged once, to the stream's port, and the client moves on. */
  lemma GuiAcksNextPacket(fileData: seq<byte>, k: nat, server: Address, port: int, source: Address, streamPort: int)
    requires |fileData| <= INT_MAX
    requires k < TotalPackets(|fileData|)
    ensures GuiAcks(false, Resync(k, false, 0), Some(server), port, FromServer(source, streamPort, ServerStream(fileData, k))) ==
      [Outgoing(AckText(k), server, streamPort)] +
      GuiAcks(false, Resync(k + 1, false, 0), Some(server), streamPort, FromServer(source, streamPort, ServerStream(fileData, k + 1)))
  {
    TotalPacketsBound(|fileData|);
    var r := Resync(k, false, 0);
    var p := CreatePacket(k, fileData);
    var inbox := FromServer(source, streamPort, ServerStream(fileData, k));
    FromServerStep(fileData, k, source, streamPort);
    assert Truncate(p, RECEIVE_BUFFER_SIZE) == p;
    GuiServerPacket(k, fileData, r);
    GuiAcksDelivered(r, Some(server), port, inbox, Resync(k + 1, false, 0), Delivered(k, p[HEADER_SIZE..]));
  }

  /** At the end of a stream the graphical client acknowledges nothing more. */
  lemma GuiAcksAtEnd(fileData: seq<byte>, server: Address, port: int, source: Address, streamPort: int)
    requires |fileData| <= INT_MAX
    ensures var n := TotalPackets(|fileData|);
      GuiAcks(false, Resync(n, false, 0), Some(server), port, FromServer(source, streamPort, ServerStream(fileData, n))) == []
  {
    TotalPacketsBound(|fileData|);
    var n := TotalPackets(|fileData|);
    var r := Resync(n, false, 0);
    var inbox := FromServer(source, streamPort, ServerStream(fileData, n));
    assert ServerStream(fileData, n) == [END_BYTES];
    assert inbox[0].data == END_BYTES && inbox[0..] == inbox;
    assert Truncate(END_BYTES, RECEIVE_BUFFER_SIZE) == END_BYTES;
    GuiAcksAdvance(false, r, Some(server), port, inbox, 0, r, Finished);
  }

  /**
   * In step with a loss-free stream from one endpoint, the graphical client
   * replies to that endpoint's port and acknowledges packets `k .. n-1`, each
   * exactly once and in order, then nothing after `END`.
   */
  lemma {:induction false} GuiAcksOfStream(fileData: seq<byte>, k: nat, server: Address, port: int,
                                            source: Address, streamPort: int)
    requires |fileData| <= INT_MAX
    requires k <= TotalPackets(|fileData|)
    ensures GuiAcks(false, Resync(k, false, 0), Some(server), port, FromServer(source, streamPort, ServerStream(fileData, k)))
      == AckRange(server, streamPort, k, TotalPackets(|fileData|))
    decreases TotalPackets(|fileData|) - k
  {
    if k == TotalPackets(|fileData|) {
      GuiAcksAtEnd(fileData, server, port, source, streamPort);
    } else {
      GuiAcksNextPacket(fileData, k, server, port, source, streamPort);
      GuiAcksOfStream(fileData, k + 1, server, streamPort, source, streamPort);
    }
  }

  /** One packet of a loss-free stream does not end the loop; what comes after decides. */
  lemma GuiEndsNextPacket(fileData: seq<byte>, k: nat)
    requires |fileData| <= INT_MAX
    requires k < TotalPackets(|fileData|)
    ensures GuiEnds(false, Resync(k, false, 0), ServerStream(fileData, k)) ==
      GuiEnds(false, Resync(k + 1, false, 0), ServerStream(fileData, k + 1))
  {
    TotalPacketsBound(|fileData|);
    var r := Resync(k, false, 0);
    var p := CreatePacket(k, fileData);
    ServerStreamStep(fileData, k);
    var stream := ServerStream(fileData, k);
    assert stream[0] == p && stream[1..] == ServerStream(fileData, k + 1) && stream[0..] == stream;
    assert Truncate(p, RECEIVE_BUFFER_SIZE) == p;
    GuiServerPacket(k, fileData, r);
    GuiEndsAdvance(false, r, stream, 0, Resync(k + 1, false, 0), Delivered(k, p[HEADER_SIZE..]));
  }

  /** A stream's `END` ends the loop. */
  lemma GuiEndsAtEnd(fileData: seq<byte>)
    requires |fileData| <= INT_MAX
    ensures GuiEnds(false, Resync(TotalPackets(|fileData|), false, 0), ServerStream(fileData, TotalPackets(|fileData|)))
  {
    TotalPacketsBound(|fileData|);
    var n := TotalPackets(|fileData|);
    var r := Resync(n, false, 0);
    var stream := ServerStream(fileData, n);
    assert stream == [END_BYTES];
    assert stream[0] == END_BYTES && stream[0..] == stream;
    assert Truncate(END_BYTES, RECEIVE_BUFFER_SIZE) == END_BYTES;
    GuiEndsAdvance(false, r, stream, 0, r, Finished);
  }

  /** From packet `k` on, a loss-free stream ends the graphical client's loop. */
  ghost predicate GuiEndsFrom(fileData: seq<byte>, k: nat)
    requires |fileData| <= INT_MAX
    requires k <= TotalPackets(|fileData|)
  {
    TotalPacketsBound(|fileData|);
    GuiEnds(false, Resync(k, false, 0), ServerStream(fileData, k))
  }

  /** In step with a loss-free stream, the graphical client's loop runs until the server's `END`. */
  lemma {:induction false} GuiStreamEnds(fileData: seq<byte>, k: nat)
    requires |fileData| <= INT_MAX
    requires k <= TotalPackets(|fileData|)
    ensures GuiEndsFrom(fileData, k)
    decreases TotalPackets(|fileData|) - k
  {
    if k == TotalPackets(|fileData|) {
      GuiEndsAtEnd(fileData);
    } else {
      GuiStreamEnds(fileData, k + 1);
      GuiEndsNextPacket(fileData, k);
    }
  }

  // ---------------------------------------------------------------- WAV header

  /** The three `fmt ` fields the player configures the audio line with. */
  datatype WavFormat = WavFormat(channels: int, rate: int, bits: int)

  /** The values the player accepts; anything else is replaced by a default. */
  predicate ValidFormat(f: WavFormat) {
    f.channels in {1, 2} && 4000 <= f.rate <= 192000 && f.bits in {8, 16}
  }

  /**
   * The fields read from the first queued chunk: channels from bytes 22-23,
   * the sample rate from bytes 24-27 and the sample size from bytes 34-35,
   * little-endian; an out-of-range value becomes 2 channels, 44100 Hz or 16
   * bits. A chunk too short for byte 35 makes the read fail (`None`).
   */
  function ReadWavFormat(header: seq<byte>): (f: Option<WavFormat>)
    ensures f.None? <==> |header| < WAV_FMT_END
    ensures f.Some? ==> ValidFormat(f.value)
    ensures f.Some? ==> (1 <= LE16(header, 22) <= 2 ==> f.value.channels == LE16(header, 22))
    ensures f.Some? ==> (!(1 <= LE16(header, 22) <= 2) ==> f.value.channels == 2)
    ensures f.Some? ==> (4000 <= LE32(header, 24) <= 192000 ==> f.value.rate == LE32(header, 24))
    ensures f.Some? ==> (!(4000 <= LE32(header, 24) <= 192000) ==> f.value.rate == 44100)
    ensures f.Some? ==> (LE16(header, 34) in {8, 16} ==> f.value.bits == LE16(header, 34))
    ensures f.Some? ==> (LE16(header, 34) !in {8, 16} ==> f.value.bits == 16)
  {
    if |header| < WAV_FMT_END then None
    else
      var channels := LE16(header, 22);
      var rate := LE32(header, 24);
      var bits := LE16(header, 34);
      Some(WavFormat(
        if channels < 1 || channels > 2 then 2 else channels,
        if rate < 4000 || rate > 192000 then 44100 else rate,
        if bits != 8 && bits != 16 then 16 else bits))
  }

  function EncodeLE16(n: int): (b: seq<byte>)
    ensures |b| == 2
  {
    [n % 0x100, (n / 0x100) % 0x100]
  }

  function EncodeLE32(n: int): (b: seq<byte>)
    ensures |b| == 4
  {
    [n % 0x100, (n / 0x100) % 0x100, (n / 0x1_0000) % 0x100, (n / 0x100_0000) % 0x100]
  }

  /**
   * The canonical 44-byte RIFF/WAVE header of PCM audio with format `f` and
   * `dataSize` bytes of samples.
   */
  function WavHeader(f: WavFormat, dataSize: nat): (h: seq<byte>)
    requires ValidFormat(f) && dataSize <= INT_MAX - 36
    ensures |h| == 44
  {
    var blockAlign := f.channels * f.bits / 8;
    Ascii("RIFF") + EncodeLE32(36 + dataSize) + Ascii("WAVE") + Ascii("fmt ")
      + EncodeLE32(16) + EncodeLE16(1) + EncodeLE16(f.channels) + EncodeLE32(f.rate)
      + EncodeLE32(f.rate * blockAlign) + EncodeLE16(blockAlign) + EncodeLE16(f.bits)
      + Ascii("data") + EncodeLE32(dataSize)
  }

  lemma LE16Encode(n: int, b: seq<byte>, i: nat)
    requires 0 <= n < 0x1_0000 && i + 2 <= |b| && b[i..i + 2] == EncodeLE16(n)
    ensures LE16(b, i) == n
  {
    assert b[i] == n % 0x100 && b[i + 1] == (n / 0x100) % 0x100;
  }

  lemma LE32Encode(n: int, b: seq<byte>, i: nat)
    requires 0 <= n <= INT_MAX && i + 4 <= |b| && b[i..i + 4] == EncodeLE32(n)
    ensures LE32(b, i) == n
  {
    assert b[i] == n % 0x100 && b[i + 1] == (n / 0x100) % 0x100;
    assert b[i + 2] == (n / 0x1_0000) % 0x100 && b[i + 3] == (n / 0x100_0000) % 0x100;
    ShiftByte(n, 0x100);
    ShiftByte(n, 0x1_0000);
    var a1, a2, a3 := n / 0x100, n / 0x1_0000, n / 0x100_0000;
    assert n == a1 * 0x100 + b[i];
    assert a1 == a2 * 0x100 + b[i + 1];
    assert a2 == a3 * 0x100 + b[i + 2];
    assert a3 == b[i + 3];
  }

  /**
   * Round trip: a first chunk that starts with the canonical header of a
   * format the player accepts reads back as exactly that format.
   */
  lemma ReadWavHeader(f: WavFormat, dataSize: nat, audio: seq<byte>)
    requires ValidFormat(f) && dataSize <= INT_MAX - 36
    ensures ReadWavFormat(WavHeader(f, dataSize) + audio) == Some(f)
  {
    var b := WavHeader(f, dataSize) + audio;
    var blockAlign := f.channels * f.bits / 8;
    assert b[22..24] == EncodeLE16(f.channels);
    assert b[24..28] == EncodeLE32(f.rate);
    assert b[34..36] == EncodeLE16(f.bits);
    LE16Encode(f.channels, b, 22);
    LE32Encode(f.rate, b, 24);
    LE16Encode(f.bits, b, 34);
  }

  // ---------------------------------------------------------------- playback clock

  /**
   * `(long)(rate * channels * (bits / 8.0))`, which is exact in integers for
   * the 8- and 16-bit sizes the player allows, with 176400 standing in for 0.
   */
  function BytesPerSecond(f: WavFormat): (bps: int)
    requires ValidFormat(f)
    ensures bps > 0
  {
    var b := f.rate * f.channels * (f.bits / 8);
    if b == 0 then 176400 else b
  }

  /** For an accepted format the fallback is never used: it is the format's true byte rate. */
  lemma ByteRateIsExact(f: WavFormat)
    requires ValidFormat(f)
    ensures BytesPerSecond(f) == f.rate * f.channels * f.bits / 8
    ensures 4000 <= BytesPerSecond(f) <= 768000
  {
    assert f.bits / 8 == 1 || f.bits / 8 == 2;
  }

  /** The `mm:ss` label and the progress bar value. */
  datatype Clock = Clock(minutes: int, seconds: int, progress: int)

  /**
   * The label and bar for packet `currentSeqNum`: elapsed seconds are the
   * bytes played (1024 per packet) over the byte rate, with Java's
   * truncating long division and remainder.
   */
  function PlaybackClock(currentSeqNum: int, bytesPerSecond: int): (c: Clock)
    requires bytesPerSecond > 0
    ensures c.minutes * 60 + c.seconds == JavaDiv(currentSeqNum * DATA_SIZE, bytesPerSecond)
    ensures currentSeqNum >= 0 ==> c.minutes >= 0 && 0 <= c.seconds < 60 && 0 <= c.progress < 100
    ensures currentSeqNum >= 0 ==> c.minutes == currentSeqNum * DATA_SIZE / bytesPerSecond / 60
    ensures -60 < c.seconds < 60 && -100 < c.progress < 100
    ensures c.progress == JavaRem(c.minutes * 60 + c.seconds, 100)
    ensures currentSeqNum >= 0 ==> c.progress == (c.minutes * 60 + c.seconds) % 100
  {
    var elapsed := JavaDiv(currentSeqNum * DATA_SIZE, bytesPerSecond);
    Clock(JavaDiv(elapsed, 60), JavaRem(elapsed, 60), JavaRem(elapsed, 100))
  }

  // ---------------------------------------------------------------- client

  /** `n` copies of `text`. */
  function Repeat(text: string, n: nat): (r: seq<string>)
    ensures |r| == n
  {
    if n == 0 then [] else Repeat(text, n - 1) + [text]
  }

  class GuiClient {
    var currentServerIP: Option<Address>
    var currentServerPort: int
    var isPlaying: bool
    var isPaused: bool
    var isSkipping: bool
    var lastAckedSeq: int
    var currentSeqNum: int
    /** Every control datagram sent so far, oldest first. */
    var sent: seq<Outgoing>
    const audioQueue: BoundedQueue

    ghost predicate Valid()
      reads this, audioQueue
    {
      audioQueue.Valid() && audioQueue.capacity == QUEUE_CAPACITY
    }

    constructor ()
      ensures Valid() && fresh(audioQueue)
      ensures currentServerIP == None && currentServerPort == 0
      ensures !isPlaying && !isPaused && !isSkipping && lastAckedSeq == -1 && currentSeqNum == 0
      ensures sent == [] && audioQueue.items == []
    {
      currentServerIP := None;
      currentServerPort := 0;
      isPlaying, isPaused, isSkipping := false, false, false;
      lastAckedSeq, currentSeqNum := -1, 0;
      sent := [];
      audioQueue := new BoundedQueue(QUEUE_CAPACITY);
    }

    /** `sendControlMessage`: a datagram with no address fails and is swallowed, so nothing is sent. */
    method SendControlMessage(text: string)
      modifies this
      ensures sent == old(sent) + SendTo(currentServerIP, currentServerPort, text)
      ensures currentServerIP == old(currentServerIP) && currentServerPort == old(currentServerPort)
      ensures isPlaying == old(isPlaying) && isPaused == old(isPaused) && isSkipping == old(isSkipping)
      ensures lastAckedSeq == old(lastAckedSeq) && currentSeqNum == old(currentSeqNum)
    {
      sent := sent + SendTo(currentServerIP, currentServerPort, text);
    }

    /** Sends `text` three times, as the Skip, Rewind and Resume buttons do. */
    method SendThreeTimes(text: string)
      modifies this
      ensures sent == old(sent) + SendAll(currentServerIP, currentServerPort, [text, text, text])
      ensures currentServerIP == old(currentServerIP) && currentServerPort == old(currentServerPort)
      ensures isPlaying == old(isPlaying) && isPaused == old(isPaused) && isSkipping == old(isSkipping)
      ensures lastAckedSeq == old(lastAckedSeq) && currentSeqNum == old(currentSeqNum)
    {
      for i := 0 to 3
        invariant sent == old(sent) + SendAll(currentServerIP, currentServerPort, Repeat(text, i))
        invariant currentServerIP == old(currentServerIP) && currentServerPort == old(currentServerPort)
        invariant isPlaying == old(isPlaying) && isPaused == old(isPaused) && isSkipping == old(isSkipping)
        invariant lastAckedSeq == old(lastAckedSeq) && currentSeqNum == old(currentSeqNum)
      {
        ghost var before := sent;
        SendAllSnoc(currentServerIP, currentServerPort, Repeat(text, i), text);
        SendControlMessage(text);
        assert sent == before + SendTo(currentServerIP, currentServerPort, text);
        assert old(sent) + SendAll(currentServerIP, currentServerPort, Repeat(text, i + 1))
          == (old(sent) + SendAll(currentServerIP, currentServerPort, Repeat(text, i))) + SendTo(currentServerIP, currentServerPort, text);
      }
      assert Repeat(text, 1) == [text];
      assert Repeat(text, 2) == [text, text];
      assert Repeat(text, 3) == [text, text, text];
    }

    /** The Skip button: enter the skipping state, send `SKIP:FAST` three times, drop the queued audio. */
    method Skip()
      requires Valid()
      modifies this, audioQueue
      ensures Valid() && isSkipping && audioQueue.items == []
      ensures sent == old(sent) + SendAll(currentServerIP, currentServerPort, ["SKIP:FAST", "SKIP:FAST", "SKIP:FAST"])
      ensures currentServerIP == old(currentServerIP) && currentServerPort == old(currentServerPort)
      ensures isPlaying == old(isPlaying) && isPaused == old(isPaused)
      ensures lastAckedSeq == old(lastAckedSeq) && currentSeqNum == old(currentSeqNum)
    {
      isSkipping := true;
      SendThreeTimes("SKIP:FAST");
      audioQueue.Clear();
    }

    /** The Rewind button: as Skip, with `REWIND`. */
    method Rewind()
      requires Valid()
      modifies this, audioQueue
      ensures Valid() && isSkipping && audioQueue.items == []
      ensures sent == old(sent) + SendAll(currentServerIP, currentServerPort, ["REWIND", "REWIND", "REWIND"])
      ensures currentServerIP == old(currentServerIP) && currentServerPort == old(currentServerPort)
      ensures isPlaying == old(isPlaying) && isPaused == old(isPaused)
      ensures lastAckedSeq == old(lastAckedSeq) && currentSeqNum == old(currentSeqNum)
    {
      isSkipping := true;
      SendThreeTimes("REWIND");
      audioQueue.Clear();
    }

    /** The Pause button: send `PAUSE` once, then drain incoming packets. */
    method Pause()
      modifies this
      ensures isPaused
      ensures sent == old(sent) + SendTo(currentServerIP, currentServerPort, "PAUSE")
      ensures currentServerIP == old(currentServerIP) && currentServerPort == old(currentServerPort)
      ensures isPlaying == old(isPlaying) && isSkipping == old(isSkipping)
      ensures lastAckedSeq == old(lastAckedSeq) && currentSeqNum == old(currentSeqNum)
    {
      SendControlMessage("PAUSE");
      isPaused := true;
    }

    /**
     * The Resume button: stop draining, send `RESUME` three times, and then,
     * once anything has been delivered, repeat the last acknowledgement.
     */
    method Resume()
      modifies this
      ensures !isPaused
      ensures sent == old(sent) + SendAll(currentServerIP, currentServerPort,
        [ "RESUME", "RESUME", "RESUME"] + (if lastAckedSeq != -1 then [AckText(lastAckedSeq)] else []))
      ensures currentServerIP == old(currentServerIP) && currentServerPort == old(currentServerPort)
      ensures isPlaying == old(isPlaying) && isSkipping == old(isSkipping)
      ensures lastAckedSeq == old(lastAckedSeq) && currentSeqNum == old(currentSeqNum)
    {
      isPaused := false;
      SendThreeTimes("RESUME");
      var extra := if lastAckedSeq != -1 then [AckText(lastAckedSeq)] else [];
      SendAllAppend(currentServerIP, currentServerPort, ["RESUME", "RESUME", "RESUME"], extra);
      if lastAckedSeq != -1 {
        SendControlMessage(AckText(lastAckedSeq));
        assert extra[1..] == [];
      }
    }

    /**
     * `startStreaming` for a song found on `port`: reset every playback flag
     * and counter, empty the queue, and send `PLAY:<song>` to the server.
     */
    method StartStreaming(song: string, port: int)
      requires Valid()
      modifies this, audioQueue
      ensures Valid() && audioQueue.items == []
      ensures isPlaying && !isPaused && !isSkipping && lastAckedSeq == -1 && currentSeqNum == 0
      ensures currentServerIP == Some(SERVER_HOST) && currentServerPort == port
      ensures sent == old(sent) + [Outgoing("PLAY:" + song, SERVER_HOST, port)]
    {
      isPlaying, isPaused, isSkipping := false, false, false;
      audioQueue.Clear();
      lastAckedSeq := -1;
      currentSeqNum := 0;
      currentServerPort := port;
      isPlaying := true;
      currentServerIP := Some(SERVER_HOST);
      sent := sent + [Outgoing("PLAY:" + song, SERVER_HOST, port)];
    }

    /**
     * One pass of `receiverLoop`: unless paused, adopt the datagram's port
     * (the address stays), then act on the datagram as `GuiReceive` says.
     */
    method ReceivePacket(expectedSeq: int, packetsSinceSkip: int, d: Datagram)
      returns (nextSeq: int, nextCount: int, g: GuiReception)
      requires Valid() && IsInt32(expectedSeq)
      modifies this, audioQueue
      ensures Valid() && IsInt32(nextSeq) && old(sent) <= sent
      ensures GuiReceive(old(isPaused), Resync(expectedSeq, old(isSkipping), packetsSinceSkip), Truncate(d.data, RECEIVE_BUFFER_SIZE))
        == (Resync(nextSeq, isSkipping, nextCount), g)
      ensures currentServerPort == if old(isPaused) then old(currentServerPort) else d.port
      ensures currentServerIP == old(currentServerIP) && isPaused == old(isPaused)
      ensures isPlaying == (old(isPlaying) && g != Finished)
      ensures g.Delivered? ==>
        && audioQueue.items == (if |old(audioQueue.items)| < QUEUE_CAPACITY then old(audioQueue.items) + [g.chunk] else old(audioQueue.items))
        && lastAckedSeq == g.seqNum && currentSeqNum == g.seqNum
      ensures !g.Delivered? ==>
        && audioQueue.items == old(audioQueue.items)
        && lastAckedSeq == old(lastAckedSeq) && currentSeqNum == old(currentSeqNum)
      ensures sent == old(sent) + GuiAck(Resync(expectedSeq, old(isSkipping), packetsSinceSkip), currentServerIP, currentServerPort, g)
      ensures audioQueue.offered == old(audioQueue.offered) + (if g.Delivered? then [g.chunk] else [])
    {
      var data := Truncate(d.data, RECEIVE_BUFFER_SIZE);
      var r := Resync(expectedSeq, isSkipping, packetsSinceSkip);
      var res := GuiReceive(isPaused, r, data);
      var s := res.0;
      g := res.1;
      nextSeq, nextCount := s.expectedSeq, s.packetsSinceSkip;
      if isPaused {
        return;
      }
      if d.port != currentServerPort {
        currentServerPort := d.port;
      }
      isSkipping := s.isSkipping;
      Act(r, g);
    }

    /**
     * What the receiver loop does about a datagram handled as `g` while it
     * expected `r.expectedSeq`: queue and acknowledge a delivery, acknowledge
     * the last in-order packet again, or stop playing at `END`.
     */
    method Act(r: Resync, g: GuiReception)
      requires Valid()
      modifies this, audioQueue
      ensures Valid()
      ensures sent == old(sent) + GuiAck(r, currentServerIP, currentServerPort, g)
      ensures currentServerIP == old(currentServerIP) && currentServerPort == old(currentServerPort)
      ensures isPaused == old(isPaused) && isSkipping == old(isSkipping)
      ensures isPlaying == (old(isPlaying) && g != Finished)
      ensures audioQueue.offered == old(audioQueue.offered) + (if g.Delivered? then [g.chunk] else [])
      ensures g.Delivered? ==>
        && audioQueue.items == (if |old(audioQueue.items)| < QUEUE_CAPACITY then old(audioQueue.items) + [g.chunk] else old(audioQueue.items))
        && lastAckedSeq == g.seqNum && currentSeqNum == g.seqNum
      ensures !g.Delivered? ==>
        && audioQueue.items == old(audioQueue.items)
        && lastAckedSeq == old(lastAckedSeq) && currentSeqNum == old(currentSeqNum)
    {
      match g {
        case Finished =>
          isPlaying := false;
        case Delivered(seqNum, chunk) =>
          var _ := audioQueue.Offer(chunk);
          SendControlMessage(AckText(seqNum));
          lastAckedSeq := seqNum;
          currentSeqNum := seqNum;
        case OutOfOrder =>
          SendControlMessage(AckText(WrapInt32(r.expectedSeq - 1)));
        case _ =>
      }
    }

    /**
     * One iteration of the receiver loop, with the ghost accounts of what has
     * been queued, offered, acknowledged and decided so far against what
     * `GuiDeliveries`, `GuiAcks` and `GuiEnds` say for the whole inbox.
     */
    method ReceiveNext(expectedSeq: int, packetsSinceSkip: int, inbox: seq<Datagram>, ghost datas: seq<seq<byte>>, i: nat,
                       ghost queued: seq<(int, Chunk)>, ghost total: seq<(int, Chunk)>, ghost offered: seq<Chunk>,
                       ghost acks: seq<Outgoing>, ghost ends: bool, ghost lastAcked0: int, ghost seqNum0: int)
      returns (nextSeq: int, nextCount: int, finished: bool, ghost nextQueued: seq<(int, Chunk)>)
      requires Valid() && isPlaying && IsInt32(expectedSeq)
      requires i < |inbox| == |datas| && datas[i] == inbox[i].data
      requires GuiLoopAccount(isPaused, Resync(expectedSeq, isSkipping, packetsSinceSkip), currentServerIP, currentServerPort,
                              inbox[i..], datas[i..], queued, total, sent, acks, ends)
      requires audioQueue.offered == offered + Chunks(queued)
      requires lastAckedSeq == LastSeqNum(lastAcked0, queued) && currentSeqNum == LastSeqNum(seqNum0, queued)
      modifies this, audioQueue
      ensures Valid() && IsInt32(nextSeq)
      ensures isPaused == old(isPaused) && currentServerIP == old(currentServerIP)
      ensures isPlaying <==> !finished
      ensures audioQueue.offered == offered + Chunks(nextQueued)
      ensures lastAckedSeq == LastSeqNum(lastAcked0, nextQueued) && currentSeqNum == LastSeqNum(seqNum0, nextQueued)
      ensures finished ==> nextQueued == total && sent == acks && ends
      ensures !finished ==>
        GuiLoopAccount(isPaused, Resync(nextSeq, isSkipping, nextCount), currentServerIP, currentServerPort,
                       inbox[i + 1..], datas[i + 1..], nextQueued, total, sent, acks, ends)
    {
      ghost var r := Resync(expectedSeq, isSkipping, packetsSinceSkip);
      ghost var paused, port, sent0 := isPaused, currentServerPort, sent;
      var g;
      nextSeq, nextCount, g := ReceivePacket(expectedSeq, packetsSinceSkip, inbox[i]);
      ghost var next := Resync(nextSeq, isSkipping, nextCount);
      assert (next, g) == GuiReceive(paused, r, Truncate(datas[i], RECEIVE_BUFFER_SIZE));
      GuiAccountAdvance(paused, r, datas, i, next, g, queued, total);
      GuiAcksAccount(paused, r, currentServerIP, port, inbox, i, next, g, sent0, sent, acks);
      GuiEndsAdvance(paused, r, datas, i, next, g);
      nextQueued := if g.Delivered? then queued + [(g.seqNum, g.chunk)] else queued;
      GuiOfferAccount(g, queued, offered, audioQueue.offered);
      finished := g == Finished;
    }

    /**
     * `receiverLoop` over the datagrams that arrive while the pause flag
     * stays as it is: from sequence number 0 and an idle counter, it queues
     * what `GuiDeliveries` says, acknowledges what `GuiAcks` says, and stops
     * playing exactly when `GuiEnds` says `END` arrives.
     */
    method ReceiverLoop(inbox: seq<Datagram>) returns (ghost queued: seq<(int, Chunk)>)
      requires Valid() && isPlaying
      modifies this, audioQueue
      ensures Valid()
      ensures queued == GuiDeliveries(old(isPaused), Resync(0, old(isSkipping), 0), seq(|inbox|, i requires 0 <= i < |inbox| => inbox[i].data))
      ensures audioQueue.offered == old(audioQueue.offered) + Chunks(queued)
      ensures sent == old(sent) + GuiAcks(old(isPaused), Resync(0, old(isSkipping), 0), old(currentServerIP), old(currentServerPort), inbox)
      ensures isPlaying <==> !GuiEnds(old(isPaused), Resync(0, old(isSkipping), 0), seq(|inbox|, i requires 0 <= i < |inbox| => inbox[i].data))
      ensures lastAckedSeq == LastSeqNum(old(lastAckedSeq), queued) && currentSeqNum == LastSeqNum(old(currentSeqNum), queued)
      ensures isPaused == old(isPaused) && currentServerIP == old(currentServerIP)
    {
      ghost var datas := seq(|inbox|, i requires 0 <= i < |inbox| => inbox[i].data);
      ghost var r0 := Resync(0, isSkipping, 0);
      ghost var total := GuiDeliveries(isPaused, r0, datas);
      ghost var acks := sent + GuiAcks(isPaused, r0, currentServerIP, currentServerPort, inbox);
      ghost var ends := GuiEnds(isPaused, r0, datas);
      GuiLoopStart(isPaused, r0, currentServerIP, currentServerPort, inbox, datas, sent);
      var expectedSeq, packetsSinceSkip := 0, 0;
      var i := 0;
      queued := [];
      assert datas[i..] == datas && inbox[i..] == inbox;
      assert audioQueue.offered == old(audioQueue.offered) + Chunks(queued);
      while i < |inbox|
        invariant Valid() && isPlaying && 0 <= i <= |inbox| && IsInt32(expectedSeq)
        invariant isPaused == old(isPaused) && currentServerIP == old(currentServerIP)
        invariant GuiLoopAccount(isPaused, Resync(expectedSeq, isSkipping, packetsSinceSkip), currentServerIP, currentServerPort,
                                 inbox[i..], datas[i..], queued, total, sent, acks, ends)
        invariant audioQueue.offered == old(audioQueue.offered) + Chunks(queued)
        invariant lastAckedSeq == LastSeqNum(old(lastAckedSeq), queued) && currentSeqNum == LastSeqNum(old(currentSeqNum), queued)
      {
        var finished;
        expectedSeq, packetsSinceSkip, finished, queued := ReceiveNext(expectedSeq, packetsSinceSkip, inbox, datas, i, queued, total,
                                                                       old(audioQueue.offered), acks, ends, old(lastAckedSeq), old(currentSeqNum));
        if finished {
          return;
        }
        i := i + 1;
      }
      assert datas[i..] == [] && inbox[i..] == [];
      GuiLoopDone(isPaused, Resync(expectedSeq, isSkipping, packetsSinceSkip), currentServerIP, currentServerPort,
                  queued, total, sent, acks, ends);
    }
  }
}
