/** The TFTP client against servers: any server at all, and RFC 1350 servers behind an unreliable network. */
module TftpProtocol {
  import opened Bytes
  import opened Tftp

  // ---------------------------------------------------------------- any server

  datatype Input = Datagram(msg: seq<byte>) | Silence

  predicate AllReadable(inputs: seq<Input>) {
    forall i :: 0 <= i < |inputs| && inputs[i].Datagram? ==> |inputs[i].msg| >= 4
  }

  /** A dialogue that is fed until it is closed or dropped. */
  datatype Dialogue = Dialogue(client: Client, alive: bool)

  function Handle(d: Dialogue, o: Outcome): Dialogue {
    Dialogue(o.client, o.level == CL_ASSIGN && !o.client.closed)
  }

  function Feed(d: Dialogue, input: Input): Dialogue
    requires input.Datagram? ==> |input.msg| >= 4
  {
    if !d.alive then d
    else match input
      case Datagram(msg) => Handle(d, Incoming(d.client, msg))
      case Silence => Handle(d, Timeout(d.client))
  }

  function FeedAll(d: Dialogue, inputs: seq<Input>): Dialogue
    requires AllReadable(inputs)
    decreases |inputs|
  {
    if inputs == [] then d
    else
      assert AllReadable(inputs[1..]) by {
        assert forall i :: 0 <= i < |inputs| - 1 ==> inputs[1..][i] == inputs[i + 1];
      }
      FeedAll(Feed(d, inputs[0]), inputs[1..])
  }

  /** The most blocks of 508 or more bytes that fit the hard limit, and the one that breaks it. */
  const MAX_BLOCKS := 8257

  function NewClient(maxFileSize: nat, maxRetries: nat, request: seq<byte>): Client {
    Client(maxFileSize, maxRetries, 0, 0, request, [], false, [])
  }

  /** What holds of a dialogue with any server: few blocks, and the packet that a timeout repeats. */
  predicate Bounded(d: Dialogue, request: seq<byte>) {
    && d.client.blocks <= MAX_BLOCKS
    && (d.alive ==> 508 * d.client.blocks <= |d.client.buffer| <= HARD_LIMIT)
    && (d.alive ==> d.client.submissions == [] && !d.client.closed)
    && |d.client.submissions| <= 1
    && d.client.lastSend == if d.client.blocks == 0 then request else Ack(d.client.blocks)
  }

  lemma FeedBounded(d: Dialogue, input: Input, request: seq<byte>)
    requires input.Datagram? ==> |input.msg| >= 4
    requires Bounded(d, request)
    ensures Bounded(Feed(d, input), request)
  {
  }

  /** Whatever a server sends, a dialogue accepts at most MAX_BLOCKS blocks and submits at most once. */
  lemma {:induction false} AnyServerBounded(d: Dialogue, inputs: seq<Input>, request: seq<byte>)
    requires AllReadable(inputs)
    requires Bounded(d, request)
    ensures Bounded(FeedAll(d, inputs), request)
    decreases |inputs|
  {
    if inputs != [] {
      assert AllReadable(inputs[1..]) by {
        assert forall i :: 0 <= i < |inputs| - 1 ==> inputs[1..][i] == inputs[i + 1];
      }
      FeedBounded(d, inputs[0], request);
      AnyServerBounded(Feed(d, inputs[0]), inputs[1..], request);
    }
  }

  /** A timeout that does not end the dialogue repeats the request, or the acknowledgement of the newest block. */
  lemma TimeoutRepeats(maxFileSize: nat, maxRetries: nat, request: seq<byte>, inputs: seq<Input>)
    requires AllReadable(inputs)
    ensures var d := FeedAll(Dialogue(NewClient(maxFileSize, maxRetries, request), true), inputs);
            var o := Timeout(d.client);
            && d.client.blocks <= MAX_BLOCKS
            && (o.level == CL_ASSIGN <==> o.client.retries < maxRetries)
            && (o.level == CL_ASSIGN ==>
                  o.replies == [if d.client.blocks == 0 then request else Ack(d.client.blocks)])
  {
    AnyServerBounded(Dialogue(NewClient(maxFileSize, maxRetries, request), true), inputs, request);
    FeedKeepsLimit(Dialogue(NewClient(maxFileSize, maxRetries, request), true), inputs);
  }

  lemma {:induction false} FeedKeepsLimit(d: Dialogue, inputs: seq<Input>)
    requires AllReadable(inputs)
    ensures FeedAll(d, inputs).client.maxRetries == d.client.maxRetries
    decreases |inputs|
  {
    if inputs != [] {
      assert AllReadable(inputs[1..]) by {
        assert forall i :: 0 <= i < |inputs| - 1 ==> inputs[1..][i] == inputs[i + 1];
      }
      FeedKeepsLimit(Feed(d, inputs[0]), inputs[1..]);
    }
  }

  // ---------------------------------------------------------------- when a dialogue gives up

  predicate IsData(input: Input) {
    input.Datagram? && |input.msg| >= 4 && input.msg[0] == 0 && input.msg[1] == 3
  }

  /** The timeouts since the last DATA datagram, whatever its block. */
  function TimeoutsInARow(inputs: seq<Input>): nat {
    if inputs == [] then 0
    else
      var n := |inputs| - 1;
      if inputs[n].Silence? then TimeoutsInARow(inputs[..n]) + 1
      else if IsData(inputs[n]) then 0
      else TimeoutsInARow(inputs[..n])
  }

  /** A dialogue that is fed one input more. */
  lemma {:induction false} FeedLast(d: Dialogue, inputs: seq<Input>, n: nat)
    requires AllReadable(inputs) && |inputs| == n + 1
    ensures AllReadable(inputs[..n]) && FeedAll(d, inputs) == Feed(FeedAll(d, inputs[..n]), inputs[n])
    decreases n
  {
    if n > 0 {
      var later, k := inputs[1..], n - 1;
      assert AllReadable(later) by {
        assert forall i :: 0 <= i < n ==> later[i] == inputs[i + 1];
      }
      FeedLast(Feed(d, inputs[0]), later, k);
      assert later[..k] == inputs[..n][1..] && later[k] == inputs[n];
    } else {
      assert inputs[1..] == [] && inputs[..0] == [];
    }
  }

  /** Of a dialogue that is open, the retries are the timeouts since the last DATA datagram. */
  lemma {:induction false} RetriesCounted(d: Dialogue, inputs: seq<Input>)
    requires AllReadable(inputs) && d.client.retries == 0
    ensures FeedAll(d, inputs).alive ==> FeedAll(d, inputs).client.retries == TimeoutsInARow(inputs)
    decreases |inputs|
  {
    if inputs != [] {
      var n := |inputs| - 1;
      FeedLast(d, inputs, n);
      RetriesCounted(d, inputs[..n]);
    }
  }

  /**
   * Whatever came before, a timeout ends an open dialogue if and only if it is the maxRetries-th in a row, or the first
   * one where maxRetries is 0.
   */
  lemma GivesUpIff(maxFileSize: nat, maxRetries: nat, request: seq<byte>, inputs: seq<Input>)
    requires AllReadable(inputs)
    ensures var d := FeedAll(Dialogue(NewClient(maxFileSize, maxRetries, request), true), inputs);
            d.alive ==> (!Feed(d, Silence).alive <==> TimeoutsInARow(inputs) + 1 == maxRetries || maxRetries == 0)
  {
    var start := Dialogue(NewClient(maxFileSize, maxRetries, request), true);
    RetriesCounted(start, inputs);
    FeedKeepsLimit(start, inputs);
    AnyServerBounded(start, inputs, request);
    RetriesBelow(start, inputs);
  }

  lemma {:induction false} RetriesBelow(d: Dialogue, inputs: seq<Input>)
    requires AllReadable(inputs) && (d.alive ==> d.client.retries == 0 || d.client.retries < d.client.maxRetries)
    ensures var d' := FeedAll(d, inputs);
            d'.alive ==> d'.client.retries == 0 || d'.client.retries < d'.client.maxRetries
    decreases |inputs|
  {
    if inputs != [] {
      assert AllReadable(inputs[1..]) by {
        assert forall i :: 0 <= i < |inputs| - 1 ==> inputs[1..][i] == inputs[i + 1];
      }
      RetriesBelow(Feed(d, inputs[0]), inputs[1..]);
    }
  }

  function Silences(n: nat): (r: seq<Input>)
    ensures |r| == n && AllReadable(r) && forall i :: 0 <= i < n ==> r[i] == Silence
  {
    seq(n, _ => Silence)
  }

  /** A silent server is waited for until the maxRetries-th timeout, and no longer. */
  lemma {:induction false} SilentServer(maxFileSize: nat, maxRetries: nat, request: seq<byte>, n: nat)
    ensures FeedAll(Dialogue(NewClient(maxFileSize, maxRetries, request), true), Silences(n)).alive
       <==> n == 0 || n < maxRetries
  {
    var start := Dialogue(NewClient(maxFileSize, maxRetries, request), true);
    if n > 0 {
      var k := n - 1;
      SilentServer(maxFileSize, maxRetries, request, k);
      FeedLast(start, Silences(n), k);
      assert Silences(n)[..k] == Silences(k);
      GivesUpIff(maxFileSize, maxRetries, request, Silences(k));
      SilencesInARow(k);
    }
  }

  lemma {:induction false} SilencesInARow(n: nat)
    ensures TimeoutsInARow(Silences(n)) == n
  {
    if n > 0 {
      SilencesInARow(n - 1);
      assert Silences(n)[..n - 1] == Silences(n - 1);
    }
  }

  predicate IsError(input: Input) {
    input.Datagram? && |input.msg| >= 4 && input.msg[0] == 0 && input.msg[1] == 5
  }

  /** An ERROR datagram ends a dialogue, and what follows adds no submission. */
  lemma {:induction false} ErrorEnds(d: Dialogue, inputs: seq<Input>)
    requires AllReadable(inputs) && inputs != [] && IsError(inputs[0])
    ensures var d' := FeedAll(d, inputs);
            !d'.alive && d'.client.submissions == d.client.submissions && d'.client.buffer == d.client.buffer
  {
    assert AllReadable(inputs[1..]) by {
      assert forall i :: 0 <= i < |inputs| - 1 ==> inputs[1..][i] == inputs[i + 1];
    }
    NothingAfterEnd(Feed(d, inputs[0]), inputs[1..]);
  }

  lemma {:induction false} NothingAfterEnd(d: Dialogue, inputs: seq<Input>)
    requires AllReadable(inputs) && !d.alive
    ensures FeedAll(d, inputs) == d
    decreases |inputs|
  {
    if inputs != [] {
      assert AllReadable(inputs[1..]) by {
        assert forall i :: 0 <= i < |inputs| - 1 ==> inputs[1..][i] == inputs[i + 1];
      }
      NothingAfterEnd(d, inputs[1..]);
    }
  }

  // ---------------------------------------------------------------- RFC 1350 servers, section 2 and 6

  /** The string that a zero ends. */
  function UpToZero(s: seq<byte>): seq<byte> {
    if s == [] || s[0] == 0 then [] else [s[0]] + UpToZero(s[1..])
  }

  lemma {:induction false} StringRead(s: seq<byte>, rest: seq<byte>)
    requires 0 !in s
    ensures UpToZero(s + ([0] + rest)) == s
  {
    var all := s + ([0] + rest);
    if s != [] {
      assert all[0] == s[0] && all[1..] == s[1..] + ([0] + rest);
      StringRead(s[1..], rest);
    }
  }

  /** And from an acknowledgement its opcode and the number of the block. */
  lemma AckReads(n: nat)
    requires n < 0x1_0000
    ensures |Ack(n)| == 4 && Opcode(Ack(n)) == 4 && BlockNumber(Ack(n)) == n
  {
    BigEndian16Reads(n);
  }

  /** Section 5 of RFC 1350: a server reads from the request its opcode, the file's name and the mode. */
  lemma RequestReads(file: seq<byte>)
    requires 0 !in file
    ensures var msg, mode := Request(file), Octet();
            && |msg| == |file| + 9 && Opcode(msg) == 1 && UpToZero(msg[2..]) == file
            && UpToZero(msg[|file| + 3..]) == mode && |mode| == 5
            && forall i :: 0 <= i < 5 ==> mode[i] == "octet"[i] as int
  {
    var msg, mode := Request(file), Octet();
    assert msg[2..] == file + ([0] + (mode + [0]));
    assert msg[|file| + 3..] == mode + ([0] + []);
    StringRead(file, mode + [0]);
    StringRead(mode, []);
  }

  const BLOCK_SIZE := 512

  /** A transfer ends with a block of fewer than 512 bytes, which may be empty. */
  function NumBlocks(file: seq<byte>): nat {
    |file| / BLOCK_SIZE + 1
  }

  function Min(a: int, b: int): int {
    if a < b then a else b
  }

  /** The first n blocks of the file. */
  function FirstBlocks(file: seq<byte>, n: nat): seq<byte> {
    file[..Min(BLOCK_SIZE * n, |file|)]
  }

  function Block(file: seq<byte>, n: nat): (b: seq<byte>)
    requires 1 <= n <= NumBlocks(file)
    ensures |b| <= BLOCK_SIZE
    ensures n < NumBlocks(file) ==> |b| == BLOCK_SIZE
    ensures n == NumBlocks(file) ==> |b| == |file| % BLOCK_SIZE
  {
    file[BLOCK_SIZE * (n - 1)..Min(BLOCK_SIZE * n, |file|)]
  }

  /** Block numbers are sent in sixteen bits. */
  function DataPacket(file: seq<byte>, n: nat): seq<byte>
    requires 1 <= n <= NumBlocks(file)
  {
    [0, 3] + BigEndian16(n % 0x1_0000) + Block(file, n)
  }

  /**
   * The client and a server that answers each request with a transfer of its own. What was sent stays on the wire:
   * any of it may arrive at any time, again, or never. transfers: the block each transfer is at.
   */
  datatype System = System(
    dialogue: Dialogue,
    transfers: seq<nat>,
    toServer: set<seq<byte>>,
    toClient: set<seq<byte>>)

  datatype Event =
    | ClientReceives(msg: seq<byte>)
    | ClientTimeout
    | ServerReceivesRequest(msg: seq<byte>)
    | ServerReceivesAck(transfer: nat, msg: seq<byte>)
    | ServerTimeout(transfer: nat)
    | ServerFails(msg: seq<byte>)

  function Deliver(s: System, o: Outcome): System {
    s.(dialogue := Handle(s.dialogue, o), toServer := s.toServer + set r | r in o.replies)
  }

  predicate IsTransfer(s: System, i: nat, file: seq<byte>) {
    i < |s.transfers| && 1 <= s.transfers[i] <= NumBlocks(file)
  }

  /** An event that is not possible leaves the system as it is. */
  function Step(s: System, e: Event, file: seq<byte>, request: seq<byte>): System {
    match e
    case ClientReceives(msg) =>
      if s.dialogue.alive && msg in s.toClient && |msg| >= 4 then Deliver(s, Incoming(s.dialogue.client, msg)) else s
    case ClientTimeout =>
      if s.dialogue.alive then Deliver(s, Timeout(s.dialogue.client)) else s
    case ServerReceivesRequest(msg) =>
      if msg in s.toServer && msg == request then
        s.(transfers := s.transfers + [1], toClient := s.toClient + {DataPacket(file, 1)})
      else s
    case ServerReceivesAck(i, msg) =>
      if msg in s.toServer && IsTransfer(s, i, file) && s.transfers[i] < NumBlocks(file)
         && msg == Ack(s.transfers[i] % 0x1_0000) then
        s.(transfers := s.transfers[i := s.transfers[i] + 1],
           toClient := s.toClient + {DataPacket(file, s.transfers[i] + 1)})
      else s
    case ServerTimeout(i) =>
      if IsTransfer(s, i, file) then s.(toClient := s.toClient + {DataPacket(file, s.transfers[i])}) else s
    case ServerFails(msg) =>
      if |msg| >= 4 && Opcode(msg) == 5 then s.(toClient := s.toClient + {msg}) else s
  }

  function Run(s: System, events: seq<Event>, file: seq<byte>, request: seq<byte>): System
    decreases |events|
  {
    if events == [] then s else Run(Step(s, events[0], file, request), events[1..], file, request)
  }

  function Start(maxFileSize: nat, maxRetries: nat, request: seq<byte>): System {
    System(Dialogue(NewClient(maxFileSize, maxRetries, request), true), [], {request}, {})
  }

  predicate WithinLimits(file: seq<byte>, maxFileSize: nat) {
    |file| <= maxFileSize && |file| / BLOCK_SIZE <= 8192
  }

  /** The files a transfer can hand over: within both limits, with a last block that the client knows as the last. */
  predicate Submittable(file: seq<byte>, maxFileSize: nat) {
    WithinLimits(file, maxFileSize) && |file| % BLOCK_SIZE < 508
  }

  predicate FromServer(msg: seq<byte>, k: nat, file: seq<byte>) {
    || (|msg| >= 4 && Opcode(msg) == 5)
    || exists n :: 1 <= n <= k + 1 && n <= NumBlocks(file) && msg == DataPacket(file, n)
  }

  predicate FromClient(msg: seq<byte>, k: nat, request: seq<byte>) {
    msg == request || exists n :: 1 <= n <= k && n < 0x1_0000 && msg == Ack(n)
  }

  ghost predicate Inv(s: System, file: seq<byte>, request: seq<byte>, maxFileSize: nat) {
    var c := s.dialogue.client;
    && Bounded(s.dialogue, request)
    && c.maxFileSize == maxFileSize
    && c.blocks <= NumBlocks(file)
    && (s.dialogue.alive ==> c.buffer == FirstBlocks(file, c.blocks))
    && (c.submissions != [] ==> c.submissions == [file] && Submittable(file, maxFileSize))
    && (forall msg :: msg in s.toClient ==> FromServer(msg, c.blocks, file))
    && (forall msg :: msg in s.toServer ==> FromClient(msg, c.blocks, request))
    && (forall i :: 0 <= i < |s.transfers| ==>
          1 <= s.transfers[i] <= c.blocks + 1 && s.transfers[i] <= NumBlocks(file))
  }

  lemma DataPacketFields(file: seq<byte>, n: nat)
    requires 1 <= n <= NumBlocks(file) && n < 0x1_0000
    ensures var msg := DataPacket(file, n);
            |msg| == 4 + |Block(file, n)| && Opcode(msg) == 3 && BlockNumber(msg) == n && msg[4..] == Block(file, n)
  {
    assert n % 0x1_0000 == n;
    BigEndian16Reads(n);
    var msg, head := DataPacket(file, n), [0, 3] + BigEndian16(n);
    assert msg == head + Block(file, n);
    assert msg[0] == 0 && msg[1] == 3 && msg[2] == BigEndian16(n)[0] && msg[3] == BigEndian16(n)[1];
  }

  lemma NextBlock(file: seq<byte>, k: nat)
    requires k < NumBlocks(file)
    ensures FirstBlocks(file, k) + Block(file, k + 1) == FirstBlocks(file, k + 1)
    ensures |FirstBlocks(file, k)| == BLOCK_SIZE * k
    ensures FirstBlocks(file, NumBlocks(file)) == file
  {
  }

  /** The client takes the packet for the block it waits for, and no other one. */
  lemma ReceiveData(s: System, n: nat, file: seq<byte>, request: seq<byte>, maxFileSize: nat)
    requires Inv(s, file, request, maxFileSize) && s.dialogue.alive
    requires 1 <= n <= s.dialogue.client.blocks + 1 && n <= NumBlocks(file)
    ensures var s' := Deliver(s, Incoming(s.dialogue.client, DataPacket(file, n)));
            Inv(s', file, request, maxFileSize)
  {
    var c := s.dialogue.client;
    var msg := DataPacket(file, n);
    DataPacketFields(file, n);
    if n == c.blocks + 1 {
      NextBlock(file, c.blocks);
      var s' := Deliver(s, Incoming(c, msg));
      var k := c.blocks + 1;
      WiderWire(s, k, file, request);
      forall m | m in s'.toServer ensures FromClient(m, k, request) {
        assert m in s.toServer || m == Ack(k);
      }
    } else {
      assert Incoming(c, msg).replies == [];
    }
  }

  /** What was on the wire remains explained when the client moves on. */
  lemma WiderWire(s: System, k: nat, file: seq<byte>, request: seq<byte>)
    requires s.dialogue.client.blocks <= k
    requires forall msg :: msg in s.toClient ==> FromServer(msg, s.dialogue.client.blocks, file)
    requires forall msg :: msg in s.toServer ==> FromClient(msg, s.dialogue.client.blocks, request)
    ensures forall msg :: msg in s.toClient ==> FromServer(msg, k, file)
    ensures forall msg :: msg in s.toServer ==> FromClient(msg, k, request)
  {
  }

  lemma AckOnce(n: nat, m: nat)
    requires n < 0x1_0000 && m < 0x1_0000 && Ack(n) == Ack(m)
    ensures n == m
  {
    assert Ack(n)[2] == n / 256 && Ack(n)[3] == n % 256;
    assert Ack(m)[2] == m / 256 && Ack(m)[3] == m % 256;
  }

  lemma ClientStepInv(s: System, e: Event, file: seq<byte>, request: seq<byte>, maxFileSize: nat)
    requires Inv(s, file, request, maxFileSize)
    requires e.ClientReceives? || e.ClientTimeout?
    ensures Inv(Step(s, e, file, request), file, request, maxFileSize)
  {
    var c := s.dialogue.client;
    match e
    case ClientReceives(msg) =>
      if s.dialogue.alive && msg in s.toClient && |msg| >= 4 {
        if Opcode(msg) == 5 {
          assert Incoming(c, msg).replies == [];
        } else {
          var n :| 1 <= n <= c.blocks + 1 && n <= NumBlocks(file) && msg == DataPacket(file, n);
          ReceiveData(s, n, file, request, maxFileSize);
        }
      }
    case ClientTimeout =>
      if s.dialogue.alive {
        var s' := Deliver(s, Timeout(c));
        forall m | m in s'.toServer ensures FromClient(m, c.blocks, request) {
          assert m in s.toServer || m == c.lastSend;
        }
      }
  }

  lemma ServerSends(s: System, s': System, n: nat, file: seq<byte>, request: seq<byte>, maxFileSize: nat)
    requires Inv(s, file, request, maxFileSize)
    requires 1 <= n <= s.dialogue.client.blocks + 1 && n <= NumBlocks(file)
    requires s' == s.(transfers := s'.transfers, toClient := s.toClient + {DataPacket(file, n)})
    requires forall i :: 0 <= i < |s'.transfers| ==>
               s'.transfers[i] == n || (i < |s.transfers| && s'.transfers[i] == s.transfers[i])
    ensures Inv(s', file, request, maxFileSize)
  {
    assert FromServer(DataPacket(file, n), s.dialogue.client.blocks, file);
  }

  /** An acknowledgement of a transfer's block is one that the client sent for that block. */
  lemma AckedBlock(s: System, i: nat, msg: seq<byte>, file: seq<byte>, request: seq<byte>, maxFileSize: nat)
    requires Inv(s, file, request, maxFileSize) && |request| > 4
    requires msg in s.toServer && i < |s.transfers| && msg == Ack(s.transfers[i] % 0x1_0000)
    ensures s.transfers[i] <= s.dialogue.client.blocks
  {
    assert |msg| == 4;
    var n :| 1 <= n <= s.dialogue.client.blocks && n < 0x1_0000 && msg == Ack(n);
    AckOnce(n, s.transfers[i]);
  }

  lemma AckStepInv(s: System, i: nat, msg: seq<byte>, file: seq<byte>, request: seq<byte>, maxFileSize: nat)
    requires Inv(s, file, request, maxFileSize)
    requires |request| > 4
    ensures Inv(Step(s, ServerReceivesAck(i, msg), file, request), file, request, maxFileSize)
  {
    if msg in s.toServer && IsTransfer(s, i, file) && s.transfers[i] < NumBlocks(file)
       && msg == Ack(s.transfers[i] % 0x1_0000) {
      AckedBlock(s, i, msg, file, request, maxFileSize);
      ServerSends(s, Step(s, ServerReceivesAck(i, msg), file, request), s.transfers[i] + 1, file, request, maxFileSize);
    }
  }

  lemma StepInv(s: System, e: Event, file: seq<byte>, request: seq<byte>, maxFileSize: nat)
    requires Inv(s, file, request, maxFileSize)
    requires |request| > 4
    ensures Inv(Step(s, e, file, request), file, request, maxFileSize)
  {
    match e
    case ClientReceives(_) => ClientStepInv(s, e, file, request, maxFileSize);
    case ClientTimeout => ClientStepInv(s, e, file, request, maxFileSize);
    case ServerReceivesAck(i, msg) => AckStepInv(s, i, msg, file, request, maxFileSize);
    case ServerReceivesRequest(msg) =>
      if msg in s.toServer && msg == request {
        ServerSends(s, Step(s, e, file, request), 1, file, request, maxFileSize);
      }
    case ServerTimeout(i) =>
      if IsTransfer(s, i, file) {
        ServerSends(s, Step(s, e, file, request), s.transfers[i], file, request, maxFileSize);
      }
    case ServerFails(_) =>
  }

  lemma {:induction false} RunInv(s: System, events: seq<Event>, file: seq<byte>, request: seq<byte>, maxFileSize: nat)
    requires Inv(s, file, request, maxFileSize)
    requires |request| > 4
    ensures Inv(Run(s, events, file, request), file, request, maxFileSize)
    decreases |events|
  {
    if events != [] {
      StepInv(s, events[0], file, request, maxFileSize);
      RunInv(Step(s, events[0], file, request), events[1..], file, request, maxFileSize);
    }
  }

  /**
   * In every run, over losses, repetitions and reordering, an open dialogue holds exactly the blocks it counted, and
   * what is submitted is the whole file, once, and only if the file is one that can be submitted.
   */
  lemma TransferSafe(file: seq<byte>, name: seq<byte>, maxFileSize: nat, maxRetries: nat, events: seq<Event>)
    ensures var s := Run(Start(maxFileSize, maxRetries, Request(name)), events, file, Request(name));
            var c := s.dialogue.client;
            && (s.dialogue.alive ==> c.buffer == FirstBlocks(file, c.blocks))
            && (c.submissions == [] || (c.submissions == [file] && Submittable(file, maxFileSize)))
  {
    var request := Request(name);
    var s := Start(maxFileSize, maxRetries, request);
    assert FromClient(request, 0, request);
    RunInv(s, events, file, request, maxFileSize);
  }

  // ---------------------------------------------------------------- a run that loses nothing

  /** From block n on: the block arrives, and its acknowledgement brings the next one. */
  function Lockstep(file: seq<byte>, n: nat): seq<Event>
    requires 1 <= n <= NumBlocks(file)
    decreases NumBlocks(file) - n
  {
    if n == NumBlocks(file) then [ClientReceives(DataPacket(file, n))]
    else [ClientReceives(DataPacket(file, n)), ServerReceivesAck(0, Ack(n % 0x1_0000))] + Lockstep(file, n + 1)
  }

  /** The server has just sent block n, which the client waits for. */
  ghost predicate AtBlock(s: System, n: nat, file: seq<byte>, request: seq<byte>, maxFileSize: nat) {
    && Inv(s, file, request, maxFileSize) && s.dialogue.alive
    && 1 <= n <= NumBlocks(file) && s.dialogue.client.blocks == n - 1
    && s.transfers != [] && s.transfers[0] == n && DataPacket(file, n) in s.toClient
  }

  lemma FullBlockAccepted(c: Client, n: nat, file: seq<byte>, maxFileSize: nat)
    requires 1 <= n < NumBlocks(file) && WithinLimits(file, maxFileSize)
    requires c.blocks == n - 1 && c.buffer == FirstBlocks(file, n - 1) && !c.closed && c.maxFileSize == maxFileSize
    ensures var o := Incoming(c, DataPacket(file, n));
            n < 0x1_0000 && o.replies == [Ack(n)] && o.level == CL_ASSIGN && !o.client.closed && o.client.blocks == n
  {
    DataPacketFields(file, n);
    NextBlock(file, n - 1);
    NextBlock(file, n);
  }

  lemma FullBlockAcked(s: System, n: nat, file: seq<byte>, request: seq<byte>, maxFileSize: nat)
    requires AtBlock(s, n, file, request, maxFileSize) && |request| > 4
    requires n < NumBlocks(file) && WithinLimits(file, maxFileSize)
    ensures n < 0x1_0000
    ensures var s1 := Step(s, ClientReceives(DataPacket(file, n)), file, request);
            && Inv(s1, file, request, maxFileSize) && s1.dialogue.alive && s1.dialogue.client.blocks == n
            && s1.transfers == s.transfers && Ack(n) in s1.toServer
  {
    FullBlockAccepted(s.dialogue.client, n, file, maxFileSize);
    StepInv(s, ClientReceives(DataPacket(file, n)), file, request, maxFileSize);
  }

  lemma FullBlockTaken(s: System, n: nat, m: nat, file: seq<byte>, request: seq<byte>, maxFileSize: nat)
    requires AtBlock(s, n, file, request, maxFileSize) && |request| > 4
    requires n < NumBlocks(file) && m == n + 1 && WithinLimits(file, maxFileSize)
    ensures var s1 := Step(s, ClientReceives(DataPacket(file, n)), file, request);
            AtBlock(Step(s1, ServerReceivesAck(0, Ack(n % 0x1_0000)), file, request), m, file, request, maxFileSize)
  {
    FullBlockAcked(s, n, file, request, maxFileSize);
    NextBlockSent(Step(s, ClientReceives(DataPacket(file, n)), file, request), n, m, file, request, maxFileSize);
  }

  lemma NextBlockSent(s: System, n: nat, m: nat, file: seq<byte>, request: seq<byte>, maxFileSize: nat)
    requires Inv(s, file, request, maxFileSize) && |request| > 4 && s.dialogue.alive && s.dialogue.client.blocks == n
    requires s.transfers != [] && s.transfers[0] == n && 1 <= n < NumBlocks(file) && n < 0x1_0000
    requires Ack(n) in s.toServer && m == n + 1
    ensures AtBlock(Step(s, ServerReceivesAck(0, Ack(n % 0x1_0000)), file, request), m, file, request, maxFileSize)
  {
    var msg := Ack(n % 0x1_0000);
    assert msg == Ack(n);
    StepInv(s, ServerReceivesAck(0, msg), file, request, maxFileSize);
    assert Step(s, ServerReceivesAck(0, msg), file, request)
        == s.(transfers := s.transfers[0 := m], toClient := s.toClient + {DataPacket(file, m)});
  }

  lemma LastBlockTaken(s: System, file: seq<byte>, request: seq<byte>, maxFileSize: nat)
    requires AtBlock(s, NumBlocks(file), file, request, maxFileSize) && |request| > 4
    requires Submittable(file, maxFileSize)
    ensures Step(s, ClientReceives(DataPacket(file, NumBlocks(file))), file, request).dialogue.client.submissions
         == [file]
  {
    var n := NumBlocks(file);
    DataPacketFields(file, n);
    NextBlock(file, n - 1);
  }

  /** Two events of a run take the transfer from one full block to the next. */
  lemma BlockRun(s: System, n: nat, file: seq<byte>, request: seq<byte>, maxFileSize: nat)
    returns (s2: System, m: nat)
    requires AtBlock(s, n, file, request, maxFileSize) && |request| > 4
    requires n < NumBlocks(file) && WithinLimits(file, maxFileSize)
    ensures m == n + 1 && AtBlock(s2, m, file, request, maxFileSize)
    ensures Run(s, Lockstep(file, n), file, request) == Run(s2, Lockstep(file, m), file, request)
  {
    m := n + 1;
    FullBlockTaken(s, n, m, file, request, maxFileSize);
    var all := Lockstep(file, n);
    assert all[1..][1..] == Lockstep(file, m);
    s2 := Step(Step(s, all[0], file, request), all[1], file, request);
  }

  lemma {:induction false} LockstepSubmits(s: System, n: nat, file: seq<byte>, request: seq<byte>, maxFileSize: nat)
    requires AtBlock(s, n, file, request, maxFileSize) && |request| > 4
    requires Submittable(file, maxFileSize)
    ensures Run(s, Lockstep(file, n), file, request).dialogue.client.submissions == [file]
    decreases NumBlocks(file) - n
  {
    if n == NumBlocks(file) {
      LastBlockTaken(s, file, request, maxFileSize);
      assert Lockstep(file, n)[1..] == [];
    } else {
      var s2, m := BlockRun(s, n, file, request, maxFileSize);
      LockstepSubmits(s2, m, file, request, maxFileSize);
    }
  }

  lemma FirstRequestServed(file: seq<byte>, name: seq<byte>, maxFileSize: nat, maxRetries: nat)
    ensures AtBlock(Step(Start(maxFileSize, maxRetries, Request(name)), ServerReceivesRequest(Request(name)),
                         file, Request(name)), 1, file, Request(name), maxFileSize)
  {
    var request := Request(name);
    assert FromClient(request, 0, request);
    StepInv(Start(maxFileSize, maxRetries, request), ServerReceivesRequest(request), file, request, maxFileSize);
  }

  predicate SubmittedBy(events: seq<Event>, file: seq<byte>, name: seq<byte>, maxFileSize: nat, maxRetries: nat) {
    Run(Start(maxFileSize, maxRetries, Request(name)), events, file, Request(name)).dialogue.client.submissions
      == [file]
  }

  /** A file gets submitted in some run exactly when it is within the limits and does not end in 508 to 511 bytes. */
  lemma SubmittedIff(file: seq<byte>, name: seq<byte>, maxFileSize: nat, maxRetries: nat)
    ensures (exists events :: SubmittedBy(events, file, name, maxFileSize, maxRetries))
       <==> Submittable(file, maxFileSize)
  {
    var request := Request(name);
    var s := Start(maxFileSize, maxRetries, request);
    forall events | SubmittedBy(events, file, name, maxFileSize, maxRetries)
      ensures Submittable(file, maxFileSize)
    {
      TransferSafe(file, name, maxFileSize, maxRetries, events);
    }
    if Submittable(file, maxFileSize) {
      var first := ServerReceivesRequest(request);
      FirstRequestServed(file, name, maxFileSize, maxRetries);
      LockstepSubmits(Step(s, first, file, request), 1, file, request, maxFileSize);
      var events := [first] + Lockstep(file, 1);
      assert events[1..] == Lockstep(file, 1);
      assert SubmittedBy(events, file, name, maxFileSize, maxRetries);
    }
  }

  // ---------------------------------------------------------------- files that are never handed over

  /** All blocks were accepted and acknowledged, and nothing was submitted. */
  predicate Withheld(s: System, file: seq<byte>) {
    var c := s.dialogue.client;
    && c.blocks == NumBlocks(file) && c.buffer == file && c.submissions == []
    && c.blocks < 0x1_0000 && Ack(c.blocks) in s.toServer
  }

  lemma LastBlockWithheld(s: System, file: seq<byte>, request: seq<byte>, maxFileSize: nat)
    requires AtBlock(s, NumBlocks(file), file, request, maxFileSize)
    requires WithinLimits(file, maxFileSize) && |file| % BLOCK_SIZE >= 508
    ensures Withheld(Step(s, ClientReceives(DataPacket(file, NumBlocks(file))), file, request), file)
  {
    var n := NumBlocks(file);
    DataPacketFields(file, n);
    NextBlock(file, n - 1);
    var o := Incoming(s.dialogue.client, DataPacket(file, n));
    assert o.replies == [Ack(n)] && Ack(n) in o.replies;
  }

  lemma {:induction false} LockstepWithheld(s: System, n: nat, file: seq<byte>, request: seq<byte>, maxFileSize: nat)
    requires AtBlock(s, n, file, request, maxFileSize) && |request| > 4
    requires WithinLimits(file, maxFileSize) && |file| % BLOCK_SIZE >= 508
    ensures Withheld(Run(s, Lockstep(file, n), file, request), file)
    decreases NumBlocks(file) - n
  {
    if n == NumBlocks(file) {
      LastBlockWithheld(s, file, request, maxFileSize);
      assert Lockstep(file, n)[1..] == [];
    } else {
      var s2, m := BlockRun(s, n, file, request, maxFileSize);
      LockstepWithheld(s2, m, file, request, maxFileSize);
    }
  }

  predicate WithheldBy(events: seq<Event>, file: seq<byte>, name: seq<byte>, maxFileSize: nat, maxRetries: nat) {
    Withheld(Run(Start(maxFileSize, maxRetries, Request(name)), events, file, Request(name)), file)
  }

  /** A file that was taken to the last byte is within the limits, and submitted unless it ends in 508 to 511 bytes. */
  ghost predicate EndInv(s: System, file: seq<byte>, maxFileSize: nat) {
    var c := s.dialogue.client;
    && (s.dialogue.alive ==> |c.buffer| <= maxFileSize)
    && (c.blocks == NumBlocks(file) && c.buffer == file ==>
          WithinLimits(file, maxFileSize) && (|file| % BLOCK_SIZE < 508 ==> c.submissions == [file]))
  }

  lemma ReceiveDataEnd(s: System, n: nat, file: seq<byte>, request: seq<byte>, maxFileSize: nat)
    requires Inv(s, file, request, maxFileSize) && EndInv(s, file, maxFileSize) && s.dialogue.alive
    requires 1 <= n <= s.dialogue.client.blocks + 1 && n <= NumBlocks(file)
    ensures EndInv(Deliver(s, Incoming(s.dialogue.client, DataPacket(file, n))), file, maxFileSize)
  {
    DataPacketFields(file, n);
    if n == s.dialogue.client.blocks + 1 {
      NextBlock(file, n - 1);
    }
  }

  lemma StepEnd(s: System, e: Event, file: seq<byte>, request: seq<byte>, maxFileSize: nat)
    requires Inv(s, file, request, maxFileSize) && EndInv(s, file, maxFileSize)
    ensures EndInv(Step(s, e, file, request), file, maxFileSize)
  {
    if e.ClientReceives? && s.dialogue.alive && e.msg in s.toClient && |e.msg| >= 4 && Opcode(e.msg) != 5 {
      var n :| 1 <= n <= s.dialogue.client.blocks + 1 && n <= NumBlocks(file) && e.msg == DataPacket(file, n);
      ReceiveDataEnd(s, n, file, request, maxFileSize);
    }
  }

  lemma {:induction false} RunEnd(s: System, events: seq<Event>, file: seq<byte>, request: seq<byte>, maxFileSize: nat)
    requires Inv(s, file, request, maxFileSize) && EndInv(s, file, maxFileSize) && |request| > 4
    ensures EndInv(Run(s, events, file, request), file, maxFileSize)
    decreases |events|
  {
    if events != [] {
      StepInv(s, events[0], file, request, maxFileSize);
      StepEnd(s, events[0], file, request, maxFileSize);
      RunEnd(Step(s, events[0], file, request), events[1..], file, request, maxFileSize);
    }
  }

  /**
   * Some run takes and acknowledges a file to its last byte without handing it over exactly when the file is within the
   * limits and ends in 508 to 511 bytes.
   */
  lemma WithheldIff(file: seq<byte>, name: seq<byte>, maxFileSize: nat, maxRetries: nat)
    ensures (exists events :: WithheldBy(events, file, name, maxFileSize, maxRetries))
       <==> WithinLimits(file, maxFileSize) && |file| % BLOCK_SIZE >= 508
  {
    var request := Request(name);
    var s := Start(maxFileSize, maxRetries, request);
    forall events | WithheldBy(events, file, name, maxFileSize, maxRetries)
      ensures WithinLimits(file, maxFileSize) && |file| % BLOCK_SIZE >= 508
    {
      assert FromClient(request, 0, request);
      RunEnd(s, events, file, request, maxFileSize);
    }
    if WithinLimits(file, maxFileSize) && |file| % BLOCK_SIZE >= 508 {
      var first := ServerReceivesRequest(request);
      FirstRequestServed(file, name, maxFileSize, maxRetries);
      LockstepWithheld(Step(s, first, file, request), 1, file, request, maxFileSize);
      var events := [first] + Lockstep(file, 1);
      assert events[1..] == Lockstep(file, 1);
      assert WithheldBy(events, file, name, maxFileSize, maxRetries);
    }
  }
}
