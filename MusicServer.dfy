/**
 * The server side: the Go-Back-N sender loop of `startStreamingGBN`, the
 * control commands it reacts to, and the request dispatch of `handleRequest`
 * with its case-insensitive file lookup over the music folder's entry names.
 */
module MusicServer {
  import opened Wrappers
  import opened Bytes
  import opened JavaText
  import opened Wire

  /** Packets in flight without acknowledgement (`WINDOW_SIZE`). */
  const WINDOW_SIZE: nat := 5
  /** Packets a SKIP moves forward and a REWIND moves back. */
  const JUMP_SIZE: nat := 400
  /** Milliseconds that must pass between two accepted jumps. */
  const DEBOUNCE_MS: nat := 200

  function Max(a: int, b: int): int {
    if a >= b then a else b
  }

  // ================================================================ sender state

  /** The local variables of `startStreamingGBN`, with the packet count of the file. */
  datatype Sender = Sender(
    base: int,
    nextSeqNum: int,
    paused: bool,
    finished: bool,
    lastCommandTime: int,
    totalPackets: nat)

  /** The state on entry to the loop. */
  function Start(totalPackets: nat): Sender {
    Sender(0, 0, false, false, 0, totalPackets)
  }

  /** The guard of the outer loop: `base < totalPackets && !finished`. */
  predicate Streaming(s: Sender) {
    s.base < s.totalPackets && !s.finished
  }

  /**
   * What holds at the top of every iteration: the window never runs ahead of
   * `base` by more than `WINDOW_SIZE`, nor past the last packet. (`base <=
   * nextSeqNum` is NOT part of it: an ACK beyond `nextSeqNum` moves `base`
   * past it.)
   */
  predicate WindowInvariant(s: Sender) {
    0 <= s.base && 0 <= s.nextSeqNum <= s.base + WINDOW_SIZE && s.nextSeqNum <= s.totalPackets
  }

  /** The consecutive numbers `lo, lo+1, ..., hi-1`. */
  function Range(lo: int, hi: int): (r: seq<int>)
    ensures |r| == Max(hi - lo, 0)
    ensures forall k :: 0 <= k < |r| ==> r[k] == lo + k
  {
    if lo < hi then seq(hi - lo, k requires 0 <= k < hi - lo => lo + k) else []
  }

  // ================================================================ window fill

  /** Where the inner send loop leaves `nextSeqNum`: unchanged while paused, else up to the window's edge. */
  function FillLimit(s: Sender): int {
    if s.paused then s.nextSeqNum
    else Max(s.nextSeqNum, Min(s.base + WINDOW_SIZE, s.totalPackets))
  }

  /** The state after the inner send loop. */
  function Filled(s: Sender): Sender {
    s.(nextSeqNum := FillLimit(s))
  }

  /**
   * Step 1 of an iteration: send packets `nextSeqNum, nextSeqNum+1, ...` while
   * the window and the file allow, breaking out at once when paused. Returns the
   * sequence numbers sent, in order.
   */
  method FillWindow(s: Sender) returns (s': Sender, sent: seq<int>)
    ensures s' == Filled(s)
    ensures sent == Range(s.nextSeqNum, FillLimit(s))
  {
    var next := s.nextSeqNum;
    sent := [];
    while next < s.base + WINDOW_SIZE && next < s.totalPackets
      invariant s.nextSeqNum <= next <= FillLimit(s)
      invariant s.paused ==> next == s.nextSeqNum
      invariant sent == Range(s.nextSeqNum, next)
    {
      if s.paused {
        break;
      }
      sent := sent + [next];
      next := next + 1;
    }
    s' := s.(nextSeqNum := next);
  }

  /** Unless paused, the fill leaves exactly the window `[.., min(base + WINDOW_SIZE, totalPackets))` sent. */
  lemma FillCompletesWindow(s: Sender)
    requires WindowInvariant(s)
    ensures !s.paused ==> FillLimit(s) == Min(s.base + WINDOW_SIZE, s.totalPackets)
    ensures s.paused ==> Range(s.nextSeqNum, FillLimit(s)) == []
    ensures WindowInvariant(Filled(s))
  {
  }

  // ================================================================ commands

  /** What the text of a datagram received by the sender means to it. */
  datatype Command =
    | AckCmd(ack: int)
    | MalformedAck
    | PauseCmd
    | ResumeCmd
    | SkipCmd
    | RewindCmd
    | StopCmd
    | Unrecognised

  /**
   * The if-chain of lines 131-165. For `ACK:` the number is `msg.split(":")[1]`,
   * i.e. the text between the first and the second colon; when that text is
   * empty Java throws (an `ArrayIndexOutOfBoundsException` if `split` dropped it
   * as a trailing empty string, else a `NumberFormatException`), and so does a
   * text `Integer.parseInt` rejects: both are `MalformedAck`.
   */
  function Classify(msg: string): Command {
    if StartsWith(msg, "ACK:") then
      match ParseInt(BeforeColon(msg[4..]))
      case Some(n) => AckCmd(n)
      case None => MalformedAck
    else if msg == "PAUSE" then PauseCmd
    else if msg == "RESUME" then ResumeCmd
    else if StartsWith(msg, "SKIP:") then SkipCmd
    else if msg == "REWIND" then RewindCmd
    else if msg == "STOP" then StopCmd
    else Unrecognised
  }

  lemma NotAck(msg: string)
    requires msg != [] && msg[0] != 'A'
    ensures !StartsWith(msg, "ACK:")
  {
    if |msg| >= 4 {
      assert msg[..4][0] == msg[0];
    }
  }

  /** The acknowledgement text a client sends is read back as the same number. */
  lemma ClientAckIsUnderstood(n: int)
    requires IsInt32(n)
    ensures Classify(AckText(n)) == AckCmd(n)
  {
    var msg := AckText(n);
    assert msg[4..] == IntToString(n);
    assert BeforeColon(msg[4..]) == IntToString(n);
    ParseIntToString(n);
  }

  /** One inbound event of the wait step: a datagram's text (with the clock reading), or the 100 ms timeout. */
  datatype ServerEvent = Received(msg: string, now: int) | ReceiveTimeout

  // ================================================================ event handlers

  /** `if (ack >= base) base = ack + 1;` with the sum taken as the mathematical one. */
  function OnAck(s: Sender, ack: int): Sender {
    if ack >= s.base then s.(base := ack + 1) else s
  }

  /** The same statement evaluated in Java `int` arithmetic, where `ack + 1` wraps. */
  function OnAckAsWritten(s: Sender, ack: int): Sender {
    if ack >= s.base then s.(base := WrapInt32(ack + 1)) else s
  }

  /** Whether a SKIP or REWIND arriving at `now` passes the shared 200 ms debounce. */
  predicate JumpAllowed(s: Sender, now: int) {
    now - s.lastCommandTime > DEBOUNCE_MS
  }

  /** `SKIP:*`: 400 packets forward, clamped to the last packet. */
  function OnSkip(s: Sender, now: int): Sender {
    if JumpAllowed(s, now) then
      var b := if s.base + JUMP_SIZE >= s.totalPackets then s.totalPackets - 1 else s.base + JUMP_SIZE;
      s.(base := b, nextSeqNum := b, lastCommandTime := now)
    else s
  }

  /** `REWIND`: 400 packets back, clamped to the first packet. */
  function OnRewind(s: Sender, now: int): Sender {
    if JumpAllowed(s, now) then
      var b := if s.base - JUMP_SIZE < 0 then 0 else s.base - JUMP_SIZE;
      s.(base := b, nextSeqNum := b, lastCommandTime := now)
    else s
  }

  /** The receive timeout: go back to `base` so the next fill resends the whole window. */
  function OnTimeout(s: Sender): Sender {
    s.(nextSeqNum := s.base)
  }

  /**
   * Step 2 of an iteration. `None` is the session dying on the exception a
   * malformed ACK throws: it escapes the loop, so no `END` is sent.
   */
  function React(s: Sender, ev: ServerEvent): Option<Sender> {
    match ev
    case ReceiveTimeout => Some(OnTimeout(s))
    case Received(msg, now) =>
      match Classify(msg)
      case AckCmd(n) => Some(OnAck(s, n))
      case MalformedAck => None
      case PauseCmd => Some(s.(paused := true))
      case ResumeCmd => Some(s.(paused := false))
      case SkipCmd => Some(OnSkip(s, now))
      case RewindCmd => Some(OnRewind(s, now))
      case StopCmd => Some(s.(finished := true))
      case Unrecognised => Some(s)
  }

  /** One iteration of the outer loop: fill, then wait for one event. */
  function Iteration(s: Sender, ev: ServerEvent): Option<Sender> {
    React(Filled(s), ev)
  }

  // ================================================================ properties of one event

  /** The window invariant holds at the top of the next iteration whenever it held at this one. */
  lemma IterationKeepsWindow(s: Sender, ev: ServerEvent)
    requires Streaming(s) && WindowInvariant(s)
    ensures Iteration(s, ev).Some? ==> WindowInvariant(Iteration(s, ev).value)
  {
  }

  /** An ACK at or above `base` moves `base` just past it and touches nothing else; an older one changes nothing; repeating an ACK is the same as receiving it once. */
  lemma AckIsCumulative(s: Sender, ack: int)
    ensures ack >= s.base ==> OnAck(s, ack) == s.(base := ack + 1)
    ensures ack < s.base ==> OnAck(s, ack) == s
    ensures OnAck(OnAck(s, ack), ack) == OnAck(s, ack)
    ensures OnAck(s, ack).base >= s.base
  {
  }

  /** An accepted SKIP moves `base` forward by 400 clamped to the last packet, restarts the window there and stamps the clock. */
  lemma SkipMovesForward(s: Sender, now: int)
    requires Streaming(s) && WindowInvariant(s)
    requires JumpAllowed(s, now)
    ensures var r := OnSkip(s, now);
      && r.base == Min(s.base + JUMP_SIZE, s.totalPackets - 1)
      && s.base <= r.base < s.totalPackets
      && r.nextSeqNum == r.base
      && r.lastCommandTime == now
      && r.paused == s.paused && r.finished == s.finished && r.totalPackets == s.totalPackets
  {
  }

  /** An accepted REWIND moves `base` back by 400 clamped to packet 0, restarts the window there and stamps the clock. */
  lemma RewindMovesBack(s: Sender, now: int)
    requires WindowInvariant(s)
    requires JumpAllowed(s, now)
    ensures var r := OnRewind(s, now);
      && r.base == Max(s.base - JUMP_SIZE, 0)
      && 0 <= r.base <= s.base
      && r.nextSeqNum == r.base
      && r.lastCommandTime == now
      && r.paused == s.paused && r.finished == s.finished && r.totalPackets == s.totalPackets
  {
  }

  /**
   * SKIP and REWIND share one debounce clock: after an accepted jump at `t1`,
   * any jump of either kind within 200 ms leaves the state as it is.
   */
  lemma JumpsShareDebounce(s: Sender, t1: int, t2: int, second: string)
    requires JumpAllowed(s, t1)
    requires t2 - t1 <= DEBOUNCE_MS
    requires second == "REWIND" || StartsWith(second, "SKIP:")
    ensures forall first :: first == OnSkip(s, t1) || first == OnRewind(s, t1) ==>
      React(first, Received(second, t2)) == Some(first)
  {
    if second == "REWIND" {
      NotAck(second);
    } else {
      assert second[0] == 'S' && second[1] == 'K';
      NotAck(second);
      assert second != "PAUSE" && second != "RESUME";
    }
  }

  /** A SKIP or REWIND within 200 ms of the last accepted jump is rejected and leaves the state exactly as it is. */
  lemma RejectedJumpChangesNothing(s: Sender, now: int, msg: string)
    requires !JumpAllowed(s, now)
    requires msg == "REWIND" || StartsWith(msg, "SKIP:")
    ensures OnSkip(s, now) == s && OnRewind(s, now) == s
    ensures React(s, Received(msg, now)) == Some(s)
  {
    if msg == "REWIND" {
      NotAck(msg);
    } else {
      assert msg[0] == 'S' && msg[1] == 'K';
      NotAck(msg);
      assert msg != "PAUSE" && msg != "RESUME";
    }
  }

  /** A timeout goes back to `base`, and (unless paused) the next fill resends the whole unacknowledged window. */
  lemma TimeoutResendsWindow(s: Sender)
    requires Streaming(s) && WindowInvariant(s)
    ensures OnTimeout(s) == s.(nextSeqNum := s.base)
    ensures !s.paused ==> Range(OnTimeout(s).nextSeqNum, FillLimit(OnTimeout(s))) == Range(s.base, Min(s.base + WINDOW_SIZE, s.totalPackets))
    ensures s.paused ==> FillLimit(OnTimeout(s)) == s.base
  {
  }

  /** PAUSE, RESUME and STOP each set one flag and nothing else; any other text changes nothing. */
  lemma ControlFlagsOnly(s: Sender, msg: string, now: int)
    ensures msg == "PAUSE" ==> React(s, Received(msg, now)) == Some(s.(paused := true))
    ensures msg == "RESUME" ==> React(s, Received(msg, now)) == Some(s.(paused := false))
    ensures msg == "STOP" ==> React(s, Received(msg, now)) == Some(s.(finished := true))
    ensures Classify(msg) == Unrecognised ==> React(s, Received(msg, now)) == Some(s)
  {
    if msg == "PAUSE" || msg == "RESUME" || msg == "STOP" {
      NotAck(msg);
      assert !StartsWith(msg, "SKIP:") by {
        assert msg[1] != 'K';
      }
    }
  }

  /**
   * Integer overflow in `base = ack + 1` (line 134): an `ACK:2147483647` makes
   * `base` wrap to `Integer.MIN_VALUE`. The loop keeps running (`base <
   * totalPackets`) with `nextSeqNum` far above `base + WINDOW_SIZE`.
   */
  lemma AckOverflowBreaksWindow()
    ensures var s := Filled(Start(1));
      var r := OnAckAsWritten(s, INT_MAX);
      && Streaming(s) && WindowInvariant(s)
      && Classify(AckText(INT_MAX)) == AckCmd(INT_MAX)
      && r.base == INT_MIN
      && Streaming(r) && !WindowInvariant(r)
  {
    ClientAckIsUnderstood(INT_MAX);
  }

  // ================================================================ the whole loop

  /** How a run of the sender loop over a finite sequence of events ends. */
  datatype Outcome =
    | Completed        // the loop guard failed: END was sent
    | Aborted          // a malformed ACK threw: the session died without END
    | InputExhausted   // still streaming when the given events ran out

  /** The state a run ends in, how it ends, and every sequence number it sent, in order. */
  datatype Trace = Trace(final: Sender, outcome: Outcome, sent: seq<int>)

  /** The loop of lines 110-172 driven by `inbox`, one event per iteration. */
  function Run(s: Sender, inbox: seq<ServerEvent>): Trace
    decreases |inbox|
  {
    if !Streaming(s) then Trace(s, Completed, [])
    else if inbox == [] then Trace(s, InputExhausted, [])
    else
      var sent := Range(s.nextSeqNum, FillLimit(s));
      match Iteration(s, inbox[0])
      case None => Trace(Filled(s), Aborted, sent)
      case Some(r) =>
        var t := Run(r, inbox[1..]);
        t.(sent := sent + t.sent)
  }

  predicate AllBelow(sent: seq<int>, totalPackets: nat) {
    forall k :: 0 <= k < |sent| ==> 0 <= sent[k] < totalPackets
  }

  /**
   * Over a whole run: the window invariant still holds at the end, every packet
   * sent is a real packet of the file, the packet count never changes, and the
   * run completes exactly when the loop guard fails.
   */
  lemma {:induction false} RunInvariants(s: Sender, inbox: seq<ServerEvent>)
    requires WindowInvariant(s)
    ensures var t := Run(s, inbox);
      && WindowInvariant(t.final)
      && t.final.totalPackets == s.totalPackets
      && AllBelow(t.sent, s.totalPackets)
      && (t.outcome == Completed <==> !Streaming(t.final))
    decreases |inbox|
  {
    if Streaming(s) && inbox != [] {
      IterationKeepsWindow(s, inbox[0]);
      match Iteration(s, inbox[0])
      case None =>
      case Some(r) =>
        RunInvariants(r, inbox[1..]);
    }
  }

  /** The packets `createPacket` builds for the given sequence numbers. */
  function Packets(sent: seq<int>, fileData: seq<byte>): (ps: seq<seq<byte>>)
    requires |fileData| <= INT_MAX
    requires AllBelow(sent, TotalPackets(|fileData|))
    ensures |ps| == |sent|
  {
    seq(|sent|, k requires 0 <= k < |sent| => CreatePacket(sent[k], fileData))
  }

  /** A trace with `sent` in front of its sequence numbers. */
  function Prepend(sent: seq<int>, t: Trace): Trace {
    t.(sent := sent + t.sent)
  }

  /** One unfolding of `Run` on a running state whose first event leaves the session alive. */
  lemma RunStep(s: Sender, inbox: seq<ServerEvent>, r: Sender)
    requires Streaming(s) && inbox != []
    requires React(Filled(s), inbox[0]) == Some(r)
    ensures Run(s, inbox) == Prepend(Range(s.nextSeqNum, FillLimit(s)), Run(r, inbox[1..]))
  {
  }

  /** One unfolding of `Run` on a running state whose first event kills the session. */
  lemma RunStepAborts(s: Sender, inbox: seq<ServerEvent>)
    requires Streaming(s) && inbox != []
    requires React(Filled(s), inbox[0]) == None
    ensures Run(s, inbox) == Trace(Filled(s), Aborted, Range(s.nextSeqNum, FillLimit(s)))
  {
  }

  lemma PrependTwice(a: seq<int>, b: seq<int>, t: Trace)
    ensures Prepend(a, Prepend(b, t)) == Prepend(a + b, t)
  {
  }

  lemma PacketsAppend(a: seq<int>, b: seq<int>, fileData: seq<byte>)
    requires |fileData| <= INT_MAX
    requires AllBelow(a, TotalPackets(|fileData|)) && AllBelow(b, TotalPackets(|fileData|))
    ensures AllBelow(a + b, TotalPackets(|fileData|))
    ensures Packets(a + b, fileData) == Packets(a, fileData) + Packets(b, fileData)
  {
  }

  /**
   * One pass of the outer loop: send the window, then wait for one event and
   * react to it. `next` is `None` when the event killed the session.
   */
  method SenderIteration(s: Sender, ev: ServerEvent, fileData: seq<byte>)
      returns (packets: seq<seq<byte>>, filled: Sender, next: Option<Sender>)
    requires |fileData| <= INT_MAX
    requires Streaming(s) && WindowInvariant(s) && s.totalPackets == TotalPackets(|fileData|)
    ensures filled == Filled(s)
    ensures AllBelow(Range(s.nextSeqNum, FillLimit(s)), s.totalPackets)
    ensures packets == Packets(Range(s.nextSeqNum, FillLimit(s)), fileData)
    ensures next == Iteration(s, ev)
    ensures next.Some? ==> WindowInvariant(next.value) && next.value.totalPackets == s.totalPackets
  {
    var sent;
    filled, sent := FillWindow(s);
    packets := Packets(sent, fileData);
    next := React(filled, ev);
    IterationKeepsWindow(s, ev);
  }

  /**
   * `startStreamingGBN` after the file is read: the loop, then `END` exactly
   * once if the loop guard failed. Everything handed to the socket is in
   * `outbox`, in order.
   */
  method StreamGBN(fileData: seq<byte>, inbox: seq<ServerEvent>)
      returns (outbox: seq<seq<byte>>, final: Sender, outcome: Outcome)
    requires |fileData| <= INT_MAX
    ensures var t := Run(Start(TotalPackets(|fileData|)), inbox);
      && final == t.final && outcome == t.outcome
      && AllBelow(t.sent, TotalPackets(|fileData|))
      && outbox == Packets(t.sent, fileData) + (if outcome == Completed then [END_BYTES] else [])
    ensures WindowInvariant(final)
    ensures outcome == Completed <==> !Streaming(final)
  {
    var totalPackets := TotalPackets(|fileData|);
    var s := Start(totalPackets);
    ghost var sentSoFar: seq<int> := [];
    ghost var trace := Run(s, inbox);
    RunInvariants(s, inbox);
    outbox := [];
    outcome := InputExhausted;
    var rest := inbox;
    while rest != [] && Streaming(s)
      invariant WindowInvariant(s) && s.totalPackets == totalPackets
      invariant AllBelow(sentSoFar, totalPackets)
      invariant outbox == Packets(sentSoFar, fileData)
      invariant trace == Prepend(sentSoFar, Run(s, rest))
      decreases |rest|
    {
      ghost var before, prior := s, sentSoFar;
      var packets, next;
      packets, s, next := SenderIteration(s, rest[0], fileData);
      ghost var sent := Range(before.nextSeqNum, FillLimit(before));
      PacketsAppend(prior, sent, fileData);
      outbox := outbox + packets;
      sentSoFar := prior + sent;
      if next.None? {
        RunStepAborts(before, rest);
        outcome := Aborted;
        final := s;
        return;
      }
      RunStep(before, rest, next.value);
      PrependTwice(prior, sent, Run(next.value, rest[1..]));
      s := next.value;
      rest := rest[1..];
    }
    final := s;
    if !Streaming(s) {
      outcome := Completed;
      outbox := outbox + [END_BYTES];
    }
  }

  // ================================================================ request dispatch

  /** What `handleRequest` does with one request datagram. */
  datatype Reply =
    | ListReply(text: string)   // `LIST_RES:` then each .wav entry followed by a comma
    | FoundReply(text: string)  // `FOUND:` then the server's own port
    | StartStream(file: string) // `startStreamingGBN` on the matching entry
    | NoReply

  /** The `listFiles` filter of line 55: the lower-cased name ends in `.wav`. */
  predicate IsWav(name: string) {
    EndsWith(ToLower(name), ".wav")
  }

  /** The folder entries the LIST filter keeps, in folder order. */
  function WavNames(names: seq<string>): seq<string> {
    if names == [] then []
    else (if IsWav(names[0]) then [names[0]] else []) + WavNames(names[1..])
  }

  /** The text after `LIST_RES:`: every kept entry followed by a comma. */
  function ListBody(names: seq<string>): string {
    if names == [] then ""
    else (if IsWav(names[0]) then names[0] + "," else "") + ListBody(names[1..])
  }

  /** Reading a comma-terminated list back into its entries. */
  function SplitEntries(s: string): seq<string>
    decreases |s|
  {
    if s == [] then []
    else
      var i := IndexOf(s, ',');
      if i == |s| then [s] else [s[..i]] + SplitEntries(s[i + 1..])
  }

  predicate NoComma(name: string) {
    forall j :: 0 <= j < |name| ==> name[j] != ','
  }

  /** The LIST reply can be read back into exactly the .wav entries, in order, when no entry name holds a comma. */
  lemma {:induction false} ListBodyRoundTrip(names: seq<string>)
    requires forall k :: 0 <= k < |names| ==> NoComma(names[k])
    ensures SplitEntries(ListBody(names)) == WavNames(names)
  {
    if names != [] {
      var rest := ListBody(names[1..]);
      ListBodyRoundTrip(names[1..]);
      if IsWav(names[0]) {
        var s := ListBody(names);
        assert s == names[0] + [','] + rest;
        IndexOfAfter(names[0], ',', rest);
        assert s[..|names[0]|] == names[0];
        assert s[|names[0]| + 1..] == rest;
        assert SplitEntries(s) == [names[0]] + SplitEntries(rest);
        assert WavNames(names) == [names[0]] + WavNames(names[1..]);
      } else {
        assert ListBody(names) == rest;
        assert WavNames(names) == WavNames(names[1..]);
      }
    }
  }

  /** The entry `findFileRobust` returns: the first whose name equals `name` ignoring case. */
  function FirstMatch(names: seq<string>, name: string): (r: Option<nat>)
    ensures r.Some? ==> r.value < |names| && EqualsIgnoreCase(names[r.value], name)
    ensures r.Some? ==> forall j :: 0 <= j < r.value ==> !EqualsIgnoreCase(names[j], name)
    ensures r.None? ==> forall j :: 0 <= j < |names| ==> !EqualsIgnoreCase(names[j], name)
  {
    if names == [] then None
    else if EqualsIgnoreCase(names[0], name) then Some(0)
    else match FirstMatch(names[1..], name)
      case Some(i) => Some(i + 1)
      case None => None
  }

  /** `findFileRobust`: scan the folder entries in order and return the first case-insensitive match, or `null`. */
  method FindFileRobust(names: seq<string>, name: string) returns (found: Option<nat>)
    ensures found == FirstMatch(names, name)
  {
    for i := 0 to |names|
      invariant forall j :: 0 <= j < i ==> !EqualsIgnoreCase(names[j], name)
    {
      if EqualsIgnoreCase(names[i], name) {
        return Some(i);
      }
    }
    return None;
  }

  /**
   * `handleRequest`: trim the text, split it at the first colon only, and act
   * on `LIST`, `BUSCAR` and `PLAY`; anything else is ignored. `names` are the
   * folder's entries in the order `listFiles` gives them.
   */
  function HandleRequest(message: string, names: seq<string>, serverPort: int): Reply {
    var m := Trim(message);
    var songName := match AfterColon(m) case Some(arg) => Trim(arg) case None => "";
    Dispatch(BeforeColon(m), songName, names, serverPort)
  }

  /** The if-chain of lines 52-72 on the command word and the trimmed song name. */
  function Dispatch(command: string, songName: string, names: seq<string>, serverPort: int): Reply {
    if command == "LIST" then ListReply("LIST_RES:" + ListBody(names))
    else if command == "BUSCAR" then
      if FirstMatch(names, songName).Some? then FoundReply("FOUND:" + IntToString(serverPort)) else NoReply
    else if command == "PLAY" then
      match FirstMatch(names, songName)
      case Some(i) => StartStream(names[i])
      case None => NoReply
    else NoReply
  }

  /** Only the three commands produce anything. */
  lemma OnlyKnownCommandsAct(message: string, names: seq<string>, serverPort: int)
    ensures HandleRequest(message, names, serverPort) != NoReply ==>
      BeforeColon(Trim(message)) in ["LIST", "BUSCAR", "PLAY"]
  {
  }

  /**
   * A request `command:arg` is split at its first colon only: the argument is
   * everything after it, colons included, trimmed.
   */
  lemma SplitRequest(command: string, arg: string)
    requires command != [] && !IsTrimmed(command[0])
    requires forall j :: 0 <= j < |command| ==> command[j] != ':'
    ensures BeforeColon(Trim(command + ":" + arg)) == command
    ensures AfterColon(Trim(command + ":" + arg)).Some?
    ensures Trim(AfterColon(Trim(command + ":" + arg)).value) == Trim(arg)
  {
    var p := command + ":";
    TrimEndAfter(p, arg);
    var m := p + TrimEnd(arg);
    assert command + ":" + arg == p + arg;
    assert TrimStart(m) == m;
    IndexOfAfter(command, ':', TrimEnd(arg));
    assert m == command + [':'] + TrimEnd(arg);
    assert m[|command| + 1..] == TrimEnd(arg);
    assert TrimEnd(TrimEnd(arg)) == TrimEnd(arg);
  }

  /** A request `command:arg` dispatches on `command` with the trimmed argument. */
  lemma HandleSplit(command: string, arg: string, names: seq<string>, serverPort: int)
    requires command != [] && !IsTrimmed(command[0])
    requires forall j :: 0 <= j < |command| ==> command[j] != ':'
    ensures HandleRequest(command + ":" + arg, names, serverPort) == Dispatch(command, Trim(arg), names, serverPort)
  {
    SplitRequest(command, arg);
  }

  /** `PLAY:<name>` streams the first entry matching the trimmed name, and does nothing when none does. */
  lemma PlayRequest(name: string, names: seq<string>, serverPort: int)
    ensures HandleRequest("PLAY:" + name, names, serverPort) ==
      match FirstMatch(names, Trim(name))
      case Some(i) => StartStream(names[i])
      case None => NoReply
  {
    assert "PLAY" + ":" + name == "PLAY:" + name;
    HandleSplit("PLAY", name, names, serverPort);
    assert "PLAY" != "LIST" by { assert "PLAY"[0] != "LIST"[0]; }
    assert "PLAY" != "BUSCAR" by { assert |"PLAY"| != |"BUSCAR"|; }
  }

  /** `BUSCAR:<name>` answers `FOUND:<port>` exactly when some entry matches the trimmed name. */
  lemma SearchRequest(name: string, names: seq<string>, serverPort: int)
    ensures HandleRequest("BUSCAR:" + name, names, serverPort) ==
      if FirstMatch(names, Trim(name)).Some? then FoundReply("FOUND:" + IntToString(serverPort)) else NoReply
  {
    assert "BUSCAR" + ":" + name == "BUSCAR:" + name;
    HandleSplit("BUSCAR", name, names, serverPort);
    assert "BUSCAR" != "LIST" by { assert |"BUSCAR"| != |"LIST"|; }
  }
}
