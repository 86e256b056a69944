/**
 * The datagram formats shared by the server and both clients: a data packet is
 * a 4-byte big-endian sequence number followed by at most 1024 bytes of the
 * file, and control messages are short ASCII texts (`ACK:<n>`, `END`, ...).
 */
module Wire {
  import opened Wrappers
  import opened Bytes
  import opened JavaText

  /** Payload bytes per data packet (`MusicServer.DATA_SIZE`). */
  const DATA_SIZE: nat := 1024
  /** Bytes of the sequence-number prefix. */
  const HEADER_SIZE: nat := 4
  /** Size of the clients' receive buffer: header plus one full payload. */
  const RECEIVE_BUFFER_SIZE: nat := 1028

  function Min(a: int, b: int): int {
    if a <= b then a else b
  }

  /** The bytes `s.getBytes()` produces for ASCII text. */
  function Ascii(s: string): (b: seq<byte>)
    requires forall i :: 0 <= i < |s| ==> s[i] < 128 as char
    ensures |b| == |s|
  {
    seq(|s|, i requires 0 <= i < |s| => s[i] as int)
  }

  /** The terminal `END` message the server sends once a stream is over. */
  const END_BYTES: seq<byte> := Ascii("END")

  /** `"ACK:" + n`, the acknowledgement text both clients send. */
  function AckText(n: int): string {
    "ACK:" + IntToString(n)
  }

  /**
   * `(int) Math.ceil((double) fileBytes.length / DATA_SIZE)`. The division is
   * by a power of two, so the double quotient is exact and the ceiling is the
   * integer one.
   */
  function TotalPackets(fileLength: nat): (n: nat)
    ensures n * DATA_SIZE >= fileLength
    ensures n > 0 ==> (n - 1) * DATA_SIZE < fileLength
    ensures n == 0 <==> fileLength == 0
  {
    (fileLength + DATA_SIZE - 1) / DATA_SIZE
  }

  /** A Java `byte[]` holds at most `Integer.MAX_VALUE` bytes, so there are at most 2^21 packets. */
  lemma TotalPacketsBound(fileLength: nat)
    requires fileLength <= INT_MAX
    ensures TotalPackets(fileLength) <= 0x20_0000
  {
  }

  /** The sequence number a client reads from bytes 0..3 of a datagram. */
  function SeqNumOf(datagram: seq<byte>): (n: int)
    requires |datagram| >= HEADER_SIZE
    ensures IsInt32(n)
  {
    DecodeBE32(datagram[..HEADER_SIZE])
  }

  /**
   * `createPacket(seqNum, fileData)`: the sequence number big-endian in bytes
   * 0..3, then the `seqNum`-th slice of the file, 1024 bytes or whatever is
   * left of it. A client reading the header gets `seqNum` back.
   */
  function CreatePacket(seqNum: int, fileData: seq<byte>): (p: seq<byte>)
    requires |fileData| <= INT_MAX
    requires 0 <= seqNum < TotalPackets(|fileData|)
    ensures |p| == HEADER_SIZE + Min(DATA_SIZE, |fileData| - seqNum * DATA_SIZE)
    ensures HEADER_SIZE < |p| <= RECEIVE_BUFFER_SIZE
    ensures SeqNumOf(p) == seqNum
    ensures p[HEADER_SIZE..] == fileData[seqNum * DATA_SIZE .. seqNum * DATA_SIZE + |p| - HEADER_SIZE]
  {
    var start := seqNum * DATA_SIZE;
    var length := Min(DATA_SIZE, |fileData| - start);
    TotalPacketsBound(|fileData|);
    DecodeEncodeBE32(seqNum);
    var p := EncodeBE32(seqNum) + fileData[start .. start + length];
    assert p[..HEADER_SIZE] == EncodeBE32(seqNum);
    p
  }

  /** The payloads of packets `0 .. n-1` laid end to end, as an in-order receiver delivers them. */
  function Reassembled(fileData: seq<byte>, n: nat): seq<byte>
    requires |fileData| <= INT_MAX
    requires n <= TotalPackets(|fileData|)
  {
    if n == 0 then [] else Reassembled(fileData, n - 1) + CreatePacket(n - 1, fileData)[HEADER_SIZE..]
  }

  lemma {:induction false} ReassembledPrefix(fileData: seq<byte>, n: nat)
    requires |fileData| <= INT_MAX
    requires n <= TotalPackets(|fileData|)
    ensures Reassembled(fileData, n) == fileData[..Min(n * DATA_SIZE, |fileData|)]
  {
    if n > 0 {
      ReassembledPrefix(fileData, n - 1);
      var p := CreatePacket(n - 1, fileData);
      assert Min((n - 1) * DATA_SIZE, |fileData|) == (n - 1) * DATA_SIZE;
      assert (n - 1) * DATA_SIZE + |p| - HEADER_SIZE == Min(n * DATA_SIZE, |fileData|);
    }
  }

  /** Round trip: the payloads of packets `0 .. TotalPackets-1`, concatenated, are the whole file. */
  lemma Reassembly(fileData: seq<byte>)
    requires |fileData| <= INT_MAX
    ensures Reassembled(fileData, TotalPackets(|fileData|)) == fileData
  {
    ReassembledPrefix(fileData, TotalPackets(|fileData|));
  }

  /** A data packet is never mistaken for the `END` message: it is at least five bytes long. */
  lemma DataPacketIsNotEnd(seqNum: int, fileData: seq<byte>)
    requires |fileData| <= INT_MAX
    requires 0 <= seqNum < TotalPackets(|fileData|)
    ensures CreatePacket(seqNum, fileData) != END_BYTES
  {
  }

  /**
   * A data packet's first byte is 0 (there are fewer than 2^24 packets), so it
   * never starts with the text `LIST` or `FOUND` that the graphical client
   * filters out.
   */
  lemma DataPacketIsNotDiscovery(seqNum: int, fileData: seq<byte>)
    requires |fileData| <= INT_MAX
    requires 0 <= seqNum < TotalPackets(|fileData|)
    ensures CreatePacket(seqNum, fileData)[0] == 0
    ensures !StartsWithText(CreatePacket(seqNum, fileData), "LIST")
    ensures !StartsWithText(CreatePacket(seqNum, fileData), "FOUND")
  {
    TotalPacketsBound(|fileData|);
    assert CreatePacket(seqNum, fileData)[..HEADER_SIZE] == EncodeBE32(seqNum);
  }

  /** `new String(datagram).startsWith(prefix)` for an ASCII prefix. */
  predicate StartsWithText(datagram: seq<byte>, prefix: string)
    requires forall i :: 0 <= i < |prefix| ==> prefix[i] < 128 as char
  {
    |prefix| <= |datagram| && datagram[..|prefix|] == Ascii(prefix)
  }

  // ---------------------------------------------------------------- datagrams

  /** An `InetAddress`, kept abstract: the model only compares and copies addresses. */
  datatype Address = Address(host: string)

  /** A received `DatagramPacket`: its bytes and the sender's address and port. */
  datatype Datagram = Datagram(data: seq<byte>, source: Address, port: int)

  /** A control message a client sends, with the address and port it goes to. */
  datatype Outgoing = Outgoing(text: string, dest: Address, port: int)

  /**
   * What `socket.receive` leaves in a buffer of `size` bytes: a longer datagram
   * is cut to the buffer, and `getLength()` is the length of what was kept.
   */
  function Truncate(data: seq<byte>, size: nat): (r: seq<byte>)
    ensures |r| == Min(|data|, size)
    ensures r == data[..|r|]
  {
    if |data| <= size then data else data[..size]
  }

  /**
   * What `sendControlMessage(text)` puts on the wire: one datagram to the
   * current server endpoint, or nothing while no server address is known.
   */
  function SendTo(ip: Option<Address>, port: int, text: string): (r: seq<Outgoing>)
    ensures |r| <= 1
    ensures r != [] <==> ip.Some?
    ensures r != [] ==> r[0].text == text && r[0].port == port
  {
    match ip
    case Some(a) => [Outgoing(text, a, port)]
    case None => []
  }

  /** The datagrams `sendControlMessage` produces for `msgs`, in order. */
  function SendAll(ip: Option<Address>, port: int, msgs: seq<string>): (r: seq<Outgoing>)
    ensures |r| == if ip.Some? then |msgs| else 0
  {
    if msgs == [] then [] else SendTo(ip, port, msgs[0]) + SendAll(ip, port, msgs[1..])
  }

  lemma {:induction false} SendAllAppend(ip: Option<Address>, port: int, a: seq<string>, b: seq<string>)
    ensures SendAll(ip, port, a + b) == SendAll(ip, port, a) + SendAll(ip, port, b)
  {
    if a == [] {
      assert a + b == b;
    } else {
      assert (a + b)[0] == a[0];
      assert (a + b)[1..] == a[1..] + b;
      SendAllAppend(ip, port, a[1..], b);
    }
  }

  /** Sending one more message appends its datagram, if any. */
  lemma SendAllSnoc(ip: Option<Address>, port: int, msgs: seq<string>, text: string)
    ensures SendAll(ip, port, msgs + [text]) == SendAll(ip, port, msgs) + SendTo(ip, port, text)
  {
    SendAllAppend(ip, port, msgs, [text]);
    assert [text][1..] == [];
  }

  // ---------------------------------------------------------------- a loss-free stream

  /** The datagrams of a loss-free stream from packet `k` on: packets `k .. n-1`, then `END`. */
  function ServerStream(fileData: seq<byte>, k: nat): seq<seq<byte>>
    requires |fileData| <= INT_MAX
    requires k <= TotalPackets(|fileData|)
    decreases TotalPackets(|fileData|) - k
  {
    if k == TotalPackets(|fileData|) then [END_BYTES]
    else [CreatePacket(k, fileData)] + ServerStream(fileData, k + 1)
  }

  /** Before the end, the stream is packet `k` followed by the rest. */
  lemma ServerStreamStep(fileData: seq<byte>, k: nat)
    requires |fileData| <= INT_MAX
    requires k < TotalPackets(|fileData|)
    ensures ServerStream(fileData, k) == [CreatePacket(k, fileData)] + ServerStream(fileData, k + 1)
  {
  }

  /** The payloads of `ds`, end to end. */
  function Payloads(ds: seq<(int, seq<byte>)>): seq<byte> {
    if ds == [] then [] else ds[0].1 + Payloads(ds[1..])
  }

  /** Packet `k`'s payload followed by the file from packet `k + 1` on is the file from packet `k` on. */
  lemma PayloadThenRest(fileData: seq<byte>, k: nat)
    requires |fileData| <= INT_MAX
    requires k < TotalPackets(|fileData|)
    ensures CreatePacket(k, fileData)[HEADER_SIZE..] + fileData[Min((k + 1) * DATA_SIZE, |fileData|)..]
      == fileData[Min(k * DATA_SIZE, |fileData|)..]
  {
    var p := CreatePacket(k, fileData);
    var a, e := k * DATA_SIZE, Min((k + 1) * DATA_SIZE, |fileData|);
    assert Min(k * DATA_SIZE, |fileData|) == a;
    assert a + |p| - HEADER_SIZE == e;
    assert p[HEADER_SIZE..] == fileData[a..e];
    assert fileData[a..] == fileData[a..e] + fileData[e..];
  }

  lemma PayloadsCons(d: (int, seq<byte>), ds: seq<(int, seq<byte>)>)
    ensures Payloads([d] + ds) == d.1 + Payloads(ds)
  {
    assert ([d] + ds)[1..] == ds;
  }

  /** At the end there is nothing more to deliver. */
  lemma InOrderDeliveriesEnd(fileData: seq<byte>)
    requires |fileData| <= INT_MAX
    ensures InOrderDeliveries(fileData, TotalPackets(|fileData|)) == []
  {
  }

  /** Before the end, the in-order deliveries are packet `k`'s payload followed by the rest. */
  lemma InOrderDeliveriesStep(fileData: seq<byte>, k: nat)
    requires |fileData| <= INT_MAX
    requires k < TotalPackets(|fileData|)
    ensures InOrderDeliveries(fileData, k) == [(k, CreatePacket(k, fileData)[HEADER_SIZE..])] + InOrderDeliveries(fileData, k + 1)
  {
  }

  /** What an in-order receiver queues from packet `k` on: each packet's number with its payload. */
  function InOrderDeliveries(fileData: seq<byte>, k: nat): seq<(int, seq<byte>)>
    requires |fileData| <= INT_MAX
    requires k <= TotalPackets(|fileData|)
    decreases TotalPackets(|fileData|) - k
  {
    if k == TotalPackets(|fileData|) then []
    else [(k, CreatePacket(k, fileData)[HEADER_SIZE..])] + InOrderDeliveries(fileData, k + 1)
  }

  lemma {:induction false} InOrderPayloads(fileData: seq<byte>, k: nat)
    requires |fileData| <= INT_MAX
    requires k <= TotalPackets(|fileData|)
    ensures Payloads(InOrderDeliveries(fileData, k)) == fileData[Min(k * DATA_SIZE, |fileData|)..]
    decreases TotalPackets(|fileData|) - k
  {
    if k < TotalPackets(|fileData|) {
      var payload := CreatePacket(k, fileData)[HEADER_SIZE..];
      PayloadsCons((k, payload), InOrderDeliveries(fileData, k + 1));
      InOrderPayloads(fileData, k + 1);
      PayloadThenRest(fileData, k);
    }
  }

  /** Round trip over the whole stream: the payloads of packets `0 .. n-1`, in order, are the file. */
  lemma InOrderReassembly(fileData: seq<byte>)
    requires |fileData| <= INT_MAX
    ensures Payloads(InOrderDeliveries(fileData, 0)) == fileData
  {
    InOrderPayloads(fileData, 0);
  }

  /** A stream's datagrams as they arrive from one server endpoint. */
  function FromServer(source: Address, port: int, stream: seq<seq<byte>>): (ds: seq<Datagram>)
    ensures |ds| == |stream|
    ensures forall j :: 0 <= j < |stream| ==> ds[j] == Datagram(stream[j], source, port)
  {
    seq(|stream|, j requires 0 <= j < |stream| => Datagram(stream[j], source, port))
  }

  /** `ACK:lo`, `ACK:lo+1`, ..., `ACK:hi-1`, each once, to one endpoint. */
  function AckRange(source: Address, port: int, lo: int, hi: int): seq<Outgoing>
    decreases hi - lo
  {
    if lo >= hi then [] else [Outgoing(AckText(lo), source, port)] + AckRange(source, port, lo + 1, hi)
  }

  /** Concatenation regroups freely; the receivers' ghost accounts lean on it at each step. */
  lemma SeqAssoc<T>(a: seq<T>, b: seq<T>, c: seq<T>)
    ensures a + (b + c) == a + b + c
  { }

  /** The datagram stream from one endpoint, packet `k` first. */
  lemma FromServerStep(fileData: seq<byte>, k: nat, source: Address, port: int)
    requires |fileData| <= INT_MAX
    requires k < TotalPackets(|fileData|)
    ensures var inbox := FromServer(source, port, ServerStream(fileData, k));
      && inbox != []
      && inbox[0] == Datagram(CreatePacket(k, fileData), source, port)
      && inbox[1..] == FromServer(source, port, ServerStream(fileData, k + 1))
  {
    ServerStreamStep(fileData, k);
    var inbox := FromServer(source, port, ServerStream(fileData, k));
    assert inbox[1..] == FromServer(source, port, ServerStream(fileData, k + 1));
  }
}
