/** The submission handler, its connections and the server: every answer meets the sample it was given for. */
module GotekProtocol {
  import opened Bytes
  import opened Gotek
  import opened Sequences

  /** A byte under way to the client; the answers carry, unseen by the client, the sample they were given for. */
  datatype WireByte = Plain(value: byte) | AnswerTo(sample: Sample, value: byte)

  datatype Phase = Fresh | Greeted | Accepted | Rejected | Serving

  /** An answer as the client used it: the sample it was given for, the one at the queue's front, and the byte. */
  datatype Applied = Applied(givenFor: Sample, appliedTo: Sample, value: byte)

  /**
   * dialogues: how many control dialogues are alive. dropping: the socket is about to drop its dialogue.
   * submitted, history: all samples taken, and all answers used so far. crashed: an answer met an empty queue.
   */
  datatype System = System(
    handler: Handler,
    dialogues: nat,
    control: Control,
    dropping: bool,
    phase: Phase,
    toServer: seq<ClientMsg>,
    toClient: seq<WireByte>,
    submitted: seq<Sample>,
    history: seq<Applied>,
    crashed: bool)

  datatype Event =
    | Submit(sample: Sample)
    | DnsResolved
    | Timer
    | ConnectionLost
    | ServerGreets(greeting: seq<byte>)
    | ServerReads(choice: byte)
    | ServerSays(value: byte)
    | ClientReads(count: nat, unreadable: set<Sample>)

  function Values(wire: seq<WireByte>): (r: seq<byte>)
    ensures |r| == |wire|
  {
    if wire == [] then [] else [wire[0].value] + Values(wire[1..])
  }

  /** The samples whose answers are under way. */
  function Labels(wire: seq<WireByte>): (r: seq<Sample>)
    ensures |r| <= |wire|
  {
    if wire == [] then [] else Label(wire[0]) + Labels(wire[1..])
  }

  function Label(b: WireByte): seq<Sample> {
    if b.AnswerTo? then [b.sample] else []
  }

  /** The samples whose requests are under way. */
  function Asked(msgs: seq<ClientMsg>): seq<Sample> {
    if msgs == [] then [] else AskedBy(msgs[0]) + Asked(msgs[1..])
  }

  function AskedBy(msg: ClientMsg): seq<Sample> {
    if msg.Ask? then [msg.sample] else []
  }

  function Plains(bytes: seq<byte>): seq<WireByte> {
    if bytes == [] then [] else [Plain(bytes[0])] + Plains(bytes[1..])
  }

  /** The uses of the answers in wire, with the queue as it is when each one is met. */
  function Uses(goten: seq<Sample>, wire: seq<WireByte>, unreadable: set<Sample>): seq<Applied>
    requires |Labels(wire)| <= |goten|
    decreases |wire|
  {
    if wire == [] then []
    else if wire[0].AnswerTo? then
      [Applied(wire[0].sample, goten[0], wire[0].value)]
      + Uses(if wire[0].value == NEW_FILE && goten[0] in unreadable then goten else goten[1..], wire[1..], unreadable)
    else Uses(goten, wire[1..], unreadable)
  }

  function Connected(s: System): System {
    s.(handler := s.handler.(status := GSHS_CONNECTED), dialogues := s.dialogues + 1,
       control := Control(GCTRL_NULL, []), dropping := false, phase := Fresh, toServer := [], toClient := [])
  }

  /** The server takes the oldest message. A request for a sample is answered by the chosen byte. */
  function ServerStep(s: System, choice: byte): System
    requires s.toServer != []
  {
    var s' := s.(toServer := s.toServer[1..]);
    match s.toServer[0]
    case Login(_) =>
      s'.(phase := if choice == 0xaa then Accepted else Rejected, toClient := s.toClient + [Plain(choice)])
    case Ready => s'.(phase := Serving)
    case Ask(sample) =>
      s'.(toClient := s.toClient + [AnswerTo(sample, if choice == NEW_FILE then NEW_FILE else KNOWN_FILE)])
    case Pong => s'
  }

  function ClientStep(s: System, count: nat, unreadable: set<Sample>): System
    requires count <= |s.toClient|
  {
    var wire := s.toClient[..count];
    if !Answerable(s.handler, s.control, Values(wire)) || |Labels(wire)| > |s.handler.goten| then s.(crashed := true)
    else
      var r := Incoming(s.handler, s.control, Values(wire), unreadable);
      s.(handler := r.handler, control := r.control, dropping := r.level == CL_DROP,
         toServer := s.toServer + r.writes, toClient := s.toClient[count..],
         history := s.history + Uses(s.handler.goten, wire, unreadable))
  }

  /** An event that is not possible leaves the system as it is. */
  function Step(s: System, e: Event): System {
    match e
    case Submit(sample) =>
      var (handler, writes) := Submitted(s.handler, sample);
      s.(handler := handler, toServer := s.toServer + writes, submitted := s.submitted + [sample])
    case DnsResolved => if s.handler.status == GSHS_RESOLVING then Connected(s) else s
    case Timer => if s.handler.status == GSHS_WAITING_SHORT then Connected(s) else s
    case ConnectionLost =>
      if s.dialogues > 0 then
        s.(handler := Lost(s.handler), dialogues := s.dialogues - 1, toServer := [], toClient := [])
      else s
    case ServerGreets(greeting) =>
      if s.dialogues > 0 && s.phase == Fresh && |greeting| == 12 then
        s.(phase := Greeted, toClient := Plains(greeting))
      else s
    case ServerReads(choice) =>
      if s.dialogues > 0 && s.toServer != [] then ServerStep(s, choice) else s
    case ServerSays(value) =>
      if s.dialogues > 0 && s.phase == Serving && !IsAnswer(value) then s.(toClient := s.toClient + [Plain(value)])
      else s
    case ClientReads(count, unreadable) =>
      if s.dialogues > 0 && !s.dropping && 1 <= count <= |s.toClient| then ClientStep(s, count, unreadable) else s
  }

  function Run(s: System, events: seq<Event>): System
    decreases |events|
  {
    if events == [] then s else Run(Step(s, events[0]), events[1..])
  }

  function Start(spool: seq<Sample>): System {
    System(Handler(spool, [], false, GSHS_RESOLVING), 0, Control(GCTRL_NULL, []), false, Fresh,
           [], [], spool, [], false)
  }

  // ---------------------------------------------------------------- the invariant

  /** What answers and other bytes may be under way while the server serves. */
  predicate WireOk(wire: seq<WireByte>) {
    forall i :: 0 <= i < |wire| ==> (wire[i].AnswerTo? <==> IsAnswer(wire[i].value))
  }

  predicate NoLogin(msgs: seq<ClientMsg>) {
    forall i :: 0 <= i < |msgs| ==> msgs[i].Ask? || msgs[i].Pong?
  }

  /** The connection has got as far as its two ends say. */
  predicate Aligned(s: System) {
    match s.control.state
    case GCTRL_NULL =>
      !s.handler.hasSocket && s.toServer == [] &&
      if s.phase == Fresh then s.control.buffer == [] && s.toClient == []
      else s.phase == Greeted && |s.control.buffer| + |s.toClient| == 12 && Labels(s.toClient) == []
    case GCTRL_AUTH =>
      !s.handler.hasSocket && s.control.buffer == [] && Labels(s.toClient) == [] &&
      if s.phase == Greeted then s.toClient == [] && |s.toServer| == 1 && s.toServer[0].Login?
      else s.toServer == [] && |s.toClient| == 1 &&
           ((s.phase == Accepted && s.toClient[0].value == 0xaa)
            || (s.phase == Rejected && s.toClient[0].value != 0xaa))
    case GCTRL_CTRL =>
      s.handler.hasSocket && s.control.buffer == [] && WireOk(s.toClient)
      && s.handler.goten == Labels(s.toClient) + Asked(s.toServer) &&
      if s.phase == Accepted then
        s.toClient == [] && s.toServer != [] && s.toServer[0].Ready? && NoLogin(s.toServer[1..])
      else s.phase == Serving && NoLogin(s.toServer)
  }

  function AppliedTo(history: seq<Applied>): seq<Sample> {
    if history == [] then [] else [history[0].appliedTo] + AppliedTo(history[1..])
  }

  /** The samples that were asked for, by the answers used. */
  function NewOnes(history: seq<Applied>): seq<Sample> {
    if history == [] then [] else NewOne(history[0]) + NewOnes(history[1..])
  }

  function NewOne(use: Applied): seq<Sample> {
    if use.value == NEW_FILE then [use.appliedTo] else []
  }

  predicate Matched(history: seq<Applied>) {
    forall i :: 0 <= i < |history| ==> history[i].givenFor == history[i].appliedTo && IsAnswer(history[i].value)
  }

  predicate Inv(s: System) {
    && !s.crashed
    && s.dialogues == (if s.handler.status == GSHS_CONNECTED then 1 else 0)
    && (s.dialogues == 0 || s.dropping ==> !s.handler.hasSocket)
    && (s.dialogues == 1 && !s.dropping ==> Aligned(s))
    && Matched(s.history)
    && s.submitted == AppliedTo(s.history) + s.handler.goten
    && s.handler.uploads == NewOnes(s.history)
  }

  // ---------------------------------------------------------------- the queues in pieces

  lemma {:induction false} LabelsAppend(a: seq<WireByte>, b: seq<WireByte>)
    ensures Labels(a + b) == Labels(a) + Labels(b)
  {
    if a == [] {
      assert a + b == b;
    } else {
      assert (a + b)[1..] == a[1..] + b;
      LabelsAppend(a[1..], b);
    }
  }

  lemma {:induction false} AskedAppend(a: seq<ClientMsg>, b: seq<ClientMsg>)
    ensures Asked(a + b) == Asked(a) + Asked(b)
  {
    if a == [] {
      assert a + b == b;
    } else {
      assert (a + b)[1..] == a[1..] + b;
      AskedAppend(a[1..], b);
    }
  }

  lemma {:induction false} AskedAsks(samples: seq<Sample>)
    ensures Asked(Asks(samples)) == samples && NoLogin(Asks(samples))
  {
    if samples != [] {
      AskedAsks(samples[1..]);
    }
  }

  lemma {:induction false} AskedPongs(bytes: seq<byte>)
    ensures Asked(Pongs(bytes)) == [] && NoLogin(Pongs(bytes))
  {
    if bytes != [] {
      AskedPongs(bytes[1..]);
      if bytes[0] == PING {
        assert Pongs(bytes)[1..] == Pongs(bytes[1..]);
      } else {
        assert Pongs(bytes) == Pongs(bytes[1..]);
      }
    }
  }

  lemma {:induction false} PlainsUnlabelled(bytes: seq<byte>)
    ensures |Plains(bytes)| == |bytes| && Labels(Plains(bytes)) == []
  {
    if bytes != [] {
      PlainsUnlabelled(bytes[1..]);
    }
  }

  lemma {:induction false} UnlabelledUses(goten: seq<Sample>, wire: seq<WireByte>, unreadable: set<Sample>)
    requires Labels(wire) == []
    ensures Uses(goten, wire, unreadable) == []
  {
    if wire != [] {
      UnlabelledUses(goten, wire[1..], unreadable);
    }
  }

  lemma {:induction false} AnswersAreLabels(wire: seq<WireByte>)
    requires WireOk(wire)
    ensures Answers(Values(wire)) == |Labels(wire)|
  {
    if wire != [] {
      AnswersAreLabels(wire[1..]);
    }
  }

  lemma {:induction false} AppliedToAppend(a: seq<Applied>, b: seq<Applied>)
    ensures AppliedTo(a + b) == AppliedTo(a) + AppliedTo(b)
  {
    if a == [] {
      assert a + b == b;
    } else {
      assert (a + b)[1..] == a[1..] + b;
      AppliedToAppend(a[1..], b);
    }
  }

  lemma {:induction false} NewOnesAppend(a: seq<Applied>, b: seq<Applied>)
    ensures NewOnes(a + b) == NewOnes(a) + NewOnes(b)
  {
    if a == [] {
      assert a + b == b;
    } else {
      assert (a + b)[1..] == a[1..] + b;
      NewOnesAppend(a[1..], b);
    }
  }

  /** The sample is reported as new, but its spooled file cannot be loaded. */
  predicate IsUnloadable(b: WireByte, unreadable: set<Sample>) {
    b.AnswerTo? && b.value == NEW_FILE && b.sample in unreadable
  }

  predicate Unloadable(wire: seq<WireByte>, unreadable: set<Sample>) {
    wire != [] && (IsUnloadable(wire[0], unreadable) || Unloadable(wire[1..], unreadable))
  }

  /** Answers that start the queue's own sequence are used for their own samples. */
  lemma {:induction false} UsesMatch(goten: seq<Sample>, wire: seq<WireByte>, rest: seq<Sample>,
                                     unreadable: set<Sample>)
    requires WireOk(wire) && goten == Labels(wire) + rest && !Unloadable(wire, unreadable)
    ensures Matched(Uses(goten, wire, unreadable)) && AppliedTo(Uses(goten, wire, unreadable)) == Labels(wire)
    decreases |wire|
  {
    if wire != [] {
      if wire[0].AnswerTo? {
        assert goten[0] == wire[0].sample && goten[1..] == Labels(wire[1..]) + rest;
        UsesMatch(goten[1..], wire[1..], rest, unreadable);
        assert Uses(goten, wire, unreadable)[1..] == Uses(goten[1..], wire[1..], unreadable);
      } else {
        assert goten == Labels(wire[1..]) + rest;
        UsesMatch(goten, wire[1..], rest, unreadable);
      }
    }
  }

  /** And these samples leave the queue, uploaded if they are new. */
  lemma {:induction false} AnswersUsed(h: Handler, wire: seq<WireByte>, rest: seq<Sample>, unreadable: set<Sample>)
    requires WireOk(wire) && h.goten == Labels(wire) + rest && !Unloadable(wire, unreadable)
    ensures Answers(Values(wire)) <= |h.goten|
    ensures AnsweredAll(h, Values(wire), unreadable)
         == h.(goten := rest, uploads := h.uploads + NewOnes(Uses(h.goten, wire, unreadable)))
    decreases |wire|
  {
    AnswersAreLabels(wire);
    if wire == [] {
      assert h.uploads + [] == h.uploads && [] + rest == rest;
    } else {
      AnswersAreLabels(wire[1..]);
      assert Values(wire)[1..] == Values(wire[1..]);
      var left := Labels(wire[1..]) + rest;
      assert Label(wire[0]) + left == h.goten;
      OneAnswer(h, wire[0], left, unreadable);
      var h1 := Answered(h, wire[0].value, unreadable);
      AnswersUsed(h1, wire[1..], rest, unreadable);
      NewOnesStep(h.goten, wire, h.uploads, unreadable);
    }
  }

  lemma NewOnesStep(goten: seq<Sample>, wire: seq<WireByte>, uploads: seq<Sample>, unreadable: set<Sample>)
    requires wire != [] && |Labels(wire)| <= |goten|
    requires wire[0].AnswerTo? && wire[0].value == NEW_FILE ==> goten[0] !in unreadable
    ensures uploads + NewOnes(Uses(goten, wire, unreadable))
         == if wire[0].AnswerTo? then
              uploads + NewOne(Applied(wire[0].sample, goten[0], wire[0].value))
              + NewOnes(Uses(goten[1..], wire[1..], unreadable))
            else uploads + NewOnes(Uses(goten, wire[1..], unreadable))
  {
    if wire[0].AnswerTo? {
      var use, later := Applied(wire[0].sample, goten[0], wire[0].value), Uses(goten[1..], wire[1..], unreadable);
      assert Uses(goten, wire, unreadable) == [use] + later;
      assert ([use] + later)[1..] == later;
      assert uploads + (NewOne(use) + NewOnes(later)) == uploads + NewOne(use) + NewOnes(later);
    }
  }

  lemma OneAnswer(h: Handler, b: WireByte, rest: seq<Sample>, unreadable: set<Sample>)
    requires b.AnswerTo? <==> IsAnswer(b.value)
    requires h.goten == Label(b) + rest && !IsUnloadable(b, unreadable)
    ensures b.AnswerTo? ==> h.goten != [] && h.goten[0] == b.sample
    ensures Answered(h, b.value, unreadable)
         == h.(goten := rest,
               uploads := h.uploads + if b.AnswerTo? then NewOne(Applied(b.sample, h.goten[0], b.value)) else [])
  {
    if b.AnswerTo? {
      assert h.goten[1..] == rest;
    }
    assert h.uploads + [] == h.uploads;
  }

  // ---------------------------------------------------------------- every event keeps the invariant

  /** The client reads answers, possibly among other bytes. */
  predicate ReadsAnswers(s: System, e: Event) {
    && e.ClientReads? && s.dialogues > 0 && !s.dropping && 1 <= e.count <= |s.toClient|
    && s.control.state == GCTRL_CTRL
  }

  /** And one of them asks for a file that cannot be loaded. */
  predicate MeetsUnloadable(s: System, e: Event) {
    ReadsAnswers(s, e) && Unloadable(s.toClient[..e.count], e.unreadable)
  }

  lemma SubmitInv(s: System, sample: Sample)
    requires Inv(s)
    ensures Inv(Step(s, Submit(sample)))
  {
    if s.handler.hasSocket {
      AskedMore(s.toServer, sample);
      Regroup(Labels(s.toClient), Asked(s.toServer), [sample]);
    } else {
      assert s.toServer + [] == s.toServer;
    }
    Regroup(AppliedTo(s.history), s.handler.goten, [sample]);
  }

  lemma AskedOne(sample: Sample)
    ensures Asked([Ask(sample)]) == [sample]
  {
    assert ([Ask(sample)])[1..] == [] && [sample] + [] == [sample];
  }

  lemma AskedMore(toServer: seq<ClientMsg>, sample: Sample)
    ensures Asked(toServer + [Ask(sample)]) == Asked(toServer) + [sample]
    ensures toServer != [] ==> (toServer + [Ask(sample)])[1..] == toServer[1..] + [Ask(sample)]
  {
    AskedAppend(toServer, [Ask(sample)]);
    AskedOne(sample);
  }

  lemma ServerReadsInv(s: System, choice: byte)
    requires Inv(s) && s.dialogues > 0 && s.toServer != []
    ensures Inv(ServerStep(s, choice))
  {
    if !s.dropping {
      match s.toServer[0]
      case Login(_) =>
        assert s.toClient + [Plain(choice)] == [Plain(choice)];
        assert Labels([Plain(choice)]) == [];
      case Ready =>
      case Pong =>
      case Ask(sample) => AskAnswered(s, choice);
    }
  }

  lemma OneLabel(b: WireByte)
    ensures Labels([b]) == Label(b)
  {
    assert ([b])[1..] == [] && Label(b) + [] == Label(b);
  }

  /** What was the oldest request under way is the newest answer under way. */
  lemma AskAnswered(s: System, choice: byte)
    requires Inv(s) && !s.dropping && s.dialogues > 0 && s.toServer != [] && s.toServer[0].Ask?
    ensures Inv(ServerStep(s, choice))
  {
    var sample := s.toServer[0].sample;
    var answer := AnswerTo(sample, if choice == NEW_FILE then NEW_FILE else KNOWN_FILE);
    LabelsAppend(s.toClient, [answer]);
    OneLabel(answer);
    Regroup(Labels(s.toClient), [sample], Asked(s.toServer[1..]));
  }

  lemma ServerSaysInv(s: System, value: byte)
    requires Inv(s)
    ensures Inv(Step(s, ServerSays(value)))
  {
    if s.dialogues > 0 && s.phase == Serving && !IsAnswer(value) && !s.dropping {
      LabelsAppend(s.toClient, [Plain(value)]);
      assert Labels(s.toClient) + Labels([Plain(value)]) == Labels(s.toClient);
    }
  }

  lemma ClientConnectsInv(s: System, count: nat, unreadable: set<Sample>)
    requires Inv(s) && s.dialogues > 0 && !s.dropping && 1 <= count <= |s.toClient|
    requires s.control.state != GCTRL_CTRL
    ensures Inv(ClientStep(s, count, unreadable))
  {
    var wire, rest := s.toClient[..count], s.toClient[count..];
    assert s.toClient == wire + rest;
    LabelsAppend(wire, rest);
    UnlabelledUses(s.handler.goten, wire, unreadable);
    assert s.history + [] == s.history;
    if s.control.state == GCTRL_AUTH {
      ClientConsentInv(s, unreadable);
    }
  }

  lemma ReadyFirst(toServer: seq<ClientMsg>, goten: seq<Sample>)
    ensures var msgs := [Ready] + Asks(goten);
            && Asked(msgs) == goten && msgs[1..] == Asks(goten) && NoLogin(msgs[1..])
            && (toServer == [] ==> toServer + msgs == msgs)
  {
    AskedAsks(goten);
    assert ([Ready] + Asks(goten))[1..] == Asks(goten);
  }

  /** The answer to the login. */
  lemma ClientConsents(s: System, unreadable: set<Sample>)
    requires Inv(s) && s.dialogues > 0 && !s.dropping && |s.toClient| == 1
    requires s.control.state == GCTRL_AUTH
    ensures var s', value := ClientStep(s, 1, unreadable), s.toClient[0].value;
            if value == 0xaa then
              s' == s.(handler := s.handler.(hasSocket := true), control := Control(GCTRL_CTRL, []),
                       toServer := s.toServer + ([Ready] + Asks(s.handler.goten)), toClient := [])
            else s' == s.(control := s.control.(buffer := [value]), dropping := true, toClient := [])
  {
    var wire := s.toClient;
    assert wire[..1] == wire && wire[1..] == [] && s.history + [] == s.history && s.toServer + [] == s.toServer;
    assert Values(wire) == [wire[0].value] && s.control.buffer + Values(wire) == [wire[0].value];
    UnlabelledUses(s.handler.goten, wire, unreadable);
  }

  lemma ClientConsentInv(s: System, unreadable: set<Sample>)
    requires Inv(s) && s.dialogues > 0 && !s.dropping && |s.toClient| == 1
    requires s.control.state == GCTRL_AUTH
    ensures Inv(ClientStep(s, 1, unreadable))
  {
    ClientConsents(s, unreadable);
    ReadyFirst(s.toServer, s.handler.goten);
  }

  /** In control, what the client reads comes off the front of what is under way. */
  lemma QueueSplit(s: System, count: nat)
    requires Inv(s) && s.dialogues > 0 && !s.dropping && count <= |s.toClient| && s.control.state == GCTRL_CTRL
    ensures WireOk(s.toClient[..count])
    ensures s.handler.goten == Labels(s.toClient[..count]) + (Labels(s.toClient[count..]) + Asked(s.toServer))
    ensures Asked(s.toServer + Pongs(Values(s.toClient[..count]))) == Asked(s.toServer)
  {
    var wire, rest := s.toClient[..count], s.toClient[count..];
    TakeDrop(s.toClient, count);
    LabelsAppend(wire, rest);
    Regroup(Labels(wire), Labels(rest), Asked(s.toServer));
    AskedPongs(Values(wire));
    AskedAppend(s.toServer, Pongs(Values(wire)));
    assert Asked(s.toServer) + [] == Asked(s.toServer);
  }

  lemma TakeDrop(wire: seq<WireByte>, count: nat)
    requires count <= |wire|
    ensures wire == wire[..count] + wire[count..]
    ensures WireOk(wire) ==> WireOk(wire[..count])
  {
  }

  /** What one message of answers does to a connection in control. */
  lemma ControlStep(s: System, count: nat, unreadable: set<Sample>)
    requires Inv(s) && s.dialogues > 0 && !s.dropping && count <= |s.toClient|
    requires s.control.state == GCTRL_CTRL && !Unloadable(s.toClient[..count], unreadable)
    ensures var wire, rest := s.toClient[..count], s.toClient[count..];
            && |Labels(wire)| <= |s.handler.goten|
            && var uses := Uses(s.handler.goten, wire, unreadable);
               && s.handler.goten == Labels(wire) + (Labels(rest) + Asked(s.toServer))
               && Matched(uses) && AppliedTo(uses) == Labels(wire)
               && ClientStep(s, count, unreadable)
               == s.(handler := s.handler.(goten := Labels(rest) + Asked(s.toServer),
                                           uploads := s.handler.uploads + NewOnes(uses)),
                     toServer := s.toServer + Pongs(Values(wire)), toClient := rest,
                     history := s.history + uses)
  {
    var wire, rest := s.toClient[..count], s.toClient[count..];
    var left := Labels(rest) + Asked(s.toServer);
    QueueSplit(s, count);
    UsesMatch(s.handler.goten, wire, left, unreadable);
    AnswersUsed(s.handler, wire, left, unreadable);
    assert s.control.buffer + Values(wire) == Values(wire);
  }

  lemma ServingAligned(s: System, s': System, count: nat, pongs: seq<ClientMsg>)
    requires Aligned(s) && s.control.state == GCTRL_CTRL && 1 <= count <= |s.toClient|
    requires Asked(pongs) == [] && NoLogin(pongs)
    requires s'.control == s.control && s'.phase == s.phase && s'.handler.hasSocket
    requires s'.toServer == s.toServer + pongs && s'.toClient == s.toClient[count..]
    requires s'.handler.goten == Labels(s'.toClient) + Asked(s.toServer)
    ensures Aligned(s')
  {
    AskedAppend(s.toServer, pongs);
    assert Asked(s.toServer) + [] == Asked(s.toServer);
  }

  lemma AccountsBalance(history: seq<Applied>, uses: seq<Applied>, answered: seq<Sample>, left: seq<Sample>)
    requires Matched(history) && Matched(uses) && AppliedTo(uses) == answered
    ensures Matched(history + uses)
    ensures AppliedTo(history + uses) + left == AppliedTo(history) + (answered + left)
    ensures NewOnes(history + uses) == NewOnes(history) + NewOnes(uses)
  {
    AppliedToAppend(history, uses);
    NewOnesAppend(history, uses);
    Regroup(AppliedTo(history), answered, left);
  }

  lemma ClientControlsInv(s: System, count: nat, unreadable: set<Sample>)
    requires Inv(s) && s.dialogues > 0 && !s.dropping && 1 <= count <= |s.toClient|
    requires s.control.state == GCTRL_CTRL && !Unloadable(s.toClient[..count], unreadable)
    ensures Inv(ClientStep(s, count, unreadable))
  {
    ControlStep(s, count, unreadable);
    var wire, rest := s.toClient[..count], s.toClient[count..];
    AskedPongs(Values(wire));
    ServingAligned(s, ClientStep(s, count, unreadable), count, Pongs(Values(wire)));
    AccountsBalance(s.history, Uses(s.handler.goten, wire, unreadable), Labels(wire), Labels(rest) + Asked(s.toServer));
  }

  lemma StepInv(s: System, e: Event)
    requires Inv(s) && !MeetsUnloadable(s, e)
    ensures Inv(Step(s, e))
  {
    match e
    case Submit(sample) => SubmitInv(s, sample);
    case DnsResolved =>
    case Timer =>
    case ConnectionLost =>
    case ServerGreets(greeting) => PlainsUnlabelled(greeting);
    case ServerReads(choice) =>
      if s.dialogues > 0 && s.toServer != [] {
        ServerReadsInv(s, choice);
      }
    case ServerSays(value) => ServerSaysInv(s, value);
    case ClientReads(count, unreadable) =>
      if s.dialogues > 0 && !s.dropping && 1 <= count <= |s.toClient| {
        if s.control.state == GCTRL_CTRL {
          ClientControlsInv(s, count, unreadable);
        } else {
          ClientConnectsInv(s, count, unreadable);
        }
      }
  }

  // ---------------------------------------------------------------- runs

  /** In no message of the run a new-file answer is for a sample whose file cannot be loaded. */
  predicate NeverUnloadable(s: System, events: seq<Event>)
    decreases |events|
  {
    events == [] || (!MeetsUnloadable(s, events[0]) && NeverUnloadable(Step(s, events[0]), events[1..]))
  }

  lemma {:induction false} RunInv(s: System, events: seq<Event>)
    requires Inv(s) && NeverUnloadable(s, events)
    ensures Inv(Run(s, events))
    decreases |events|
  {
    if events != [] {
      StepInv(s, events[0]);
      RunInv(Step(s, events[0]), events[1..]);
    }
  }

  lemma StartInv(spool: seq<Sample>)
    ensures Inv(Start(spool))
  {
    assert [] + spool == spool;
  }

  /**
   * Over every run, with losses and reconnections, in which the files asked for can be loaded: each answer was used
   * for the sample it was given for, the samples taken are, in order, those answered and those still queued, the
   * uploads are those answered as new, and the queue of a connection in control is what is under way.
   */
  lemma SubmissionSafe(spool: seq<Sample>, events: seq<Event>)
    requires NeverUnloadable(Start(spool), events)
    ensures var s := Run(Start(spool), events);
            && !s.crashed
            && (forall i :: 0 <= i < |s.history| ==> s.history[i].givenFor == s.history[i].appliedTo)
            && s.submitted == AppliedTo(s.history) + s.handler.goten
            && s.handler.uploads == NewOnes(s.history)
            && QueueAligned(s)
  {
    StartInv(spool);
    RunInv(Start(spool), events);
  }

  /** In control, the queue is what is under way: first the samples being answered, then those being asked for. */
  predicate QueueAligned(s: System) {
    s.handler.hasSocket ==> s.handler.goten == Labels(s.toClient) + Asked(s.toServer)
  }

  // ---------------------------------------------------------------- one dialogue

  predicate OneDialogue(s: System) {
    s.dialogues == if s.handler.status == GSHS_CONNECTED then 1 else 0
  }

  lemma {:induction false} RunOneDialogue(s: System, events: seq<Event>)
    requires OneDialogue(s)
    ensures OneDialogue(Run(s, events))
    decreases |events|
  {
    if events != [] {
      RunOneDialogue(Step(s, events[0]), events[1..]);
    }
  }

  /**
   * In every state of every run, whatever can be loaded, there is one dialogue exactly when the handler is connected,
   * so that the end of a dialogue finds the handler neither resolving nor waiting, and leaves it waiting.
   */
  lemma OneDialogueAlways(spool: seq<Sample>, events: seq<Event>)
    ensures var s := Run(Start(spool), events);
            && OneDialogue(s)
            && (s.dialogues > 0 ==> s.handler.status != GSHS_RESOLVING && s.handler.status != GSHS_WAITING_SHORT)
            && (s.dialogues > 0 ==> Step(s, ConnectionLost).handler.status == GSHS_WAITING_SHORT
                                    && Step(s, ConnectionLost).dialogues == 0)
  {
    RunOneDialogue(Start(spool), events);
  }

  // ---------------------------------------------------------------- no answer without a question

  /** Every answer takes at most one sample off the queue. */
  lemma {:induction false} AnswersTakeOne(h: Handler, bytes: seq<byte>, unreadable: set<Sample>)
    requires Answers(bytes) <= |h.goten|
    ensures |AnsweredAll(h, bytes, unreadable).goten| >= |h.goten| - Answers(bytes)
    decreases |bytes|
  {
    if bytes != [] {
      AnswersTakeOne(Answered(h, bytes[0], unreadable), bytes[1..], unreadable);
    }
  }

  /** The connection has got as far as its ends say, and nothing is under way that is not in the queue. */
  predicate Covered(s: System) {
    if s.control.state != GCTRL_CTRL then Aligned(s)
    else
      && s.handler.hasSocket && s.control.buffer == [] && WireOk(s.toClient)
      && |s.handler.goten| >= |Labels(s.toClient)| + |Asked(s.toServer)|
      && if s.phase == Accepted then
           s.toClient == [] && s.toServer != [] && s.toServer[0].Ready? && NoLogin(s.toServer[1..])
         else s.phase == Serving && NoLogin(s.toServer)
  }

  predicate Sound(s: System) {
    && !s.crashed && OneDialogue(s)
    && (s.dialogues == 0 || s.dropping ==> !s.handler.hasSocket)
    && (s.dialogues == 1 && !s.dropping ==> Covered(s))
  }

  lemma SubmitSound(s: System, sample: Sample)
    requires Sound(s)
    ensures Sound(Step(s, Submit(sample)))
  {
    if s.handler.hasSocket {
      AskedAppend(s.toServer, [Ask(sample)]);
      AskedOne(sample);
      if s.phase == Accepted {
        assert (s.toServer + [Ask(sample)])[1..] == s.toServer[1..] + [Ask(sample)];
      }
    } else {
      assert s.toServer + [] == s.toServer;
    }
  }

  lemma ServerReadsSound(s: System, choice: byte)
    requires Sound(s) && s.dialogues > 0 && s.toServer != []
    ensures Sound(ServerStep(s, choice))
  {
    if !s.dropping {
      match s.toServer[0]
      case Login(_) =>
        assert s.toClient + [Plain(choice)] == [Plain(choice)];
        OneLabel(Plain(choice));
      case Ready =>
      case Pong =>
      case Ask(sample) =>
        var answer := AnswerTo(sample, if choice == NEW_FILE then NEW_FILE else KNOWN_FILE);
        LabelsAppend(s.toClient, [answer]);
        OneLabel(answer);
    }
  }

  lemma ServerSaysSound(s: System, value: byte)
    requires Sound(s)
    ensures Sound(Step(s, ServerSays(value)))
  {
    LabelsAppend(s.toClient, [Plain(value)]);
    OneLabel(Plain(value));
  }

  lemma ClientConnectsSound(s: System, count: nat, unreadable: set<Sample>)
    requires Sound(s) && s.dialogues > 0 && !s.dropping && 1 <= count <= |s.toClient|
    requires s.control.state != GCTRL_CTRL
    ensures Sound(ClientStep(s, count, unreadable))
  {
    var wire, rest := s.toClient[..count], s.toClient[count..];
    assert s.toClient == wire + rest;
    LabelsAppend(wire, rest);
    if s.control.state == GCTRL_AUTH {
      assert Values(wire) == [wire[0].value] && s.control.buffer + Values(wire) == [wire[0].value];
      if wire[0].value == 0xaa {
        ReadyFirst(s.toServer, s.handler.goten);
      }
    }
  }

  lemma ClientControlsSound(s: System, count: nat, unreadable: set<Sample>)
    requires Sound(s) && s.dialogues > 0 && !s.dropping && 1 <= count <= |s.toClient|
    requires s.control.state == GCTRL_CTRL
    ensures Sound(ClientStep(s, count, unreadable))
  {
    var wire, rest := s.toClient[..count], s.toClient[count..];
    var values := Values(wire);
    NoneBefore(values);
    TakeDrop(s.toClient, count);
    LabelsAppend(wire, rest);
    AnswersAreLabels(wire);
    AnswersTakeOne(s.handler, values, unreadable);
    AskedPongs(values);
    AskedAppend(s.toServer, Pongs(values));
  }

  lemma StepSound(s: System, e: Event)
    requires Sound(s)
    ensures Sound(Step(s, e))
  {
    match e
    case Submit(sample) => SubmitSound(s, sample);
    case ServerGreets(greeting) => PlainsUnlabelled(greeting);
    case ServerReads(choice) =>
      if s.dialogues > 0 && s.toServer != [] {
        ServerReadsSound(s, choice);
      }
    case ServerSays(value) => ServerSaysSound(s, value);
    case ClientReads(count, unreadable) =>
      if s.dialogues > 0 && !s.dropping && 1 <= count <= |s.toClient| {
        if s.control.state == GCTRL_CTRL {
          ClientControlsSound(s, count, unreadable);
        } else {
          ClientConnectsSound(s, count, unreadable);
        }
      }
    case _ =>
  }

  lemma {:induction false} RunSound(s: System, events: seq<Event>)
    requires Sound(s)
    ensures Sound(Run(s, events))
    decreases |events|
  {
    if events != [] {
      StepSound(s, events[0]);
      RunSound(Step(s, events[0]), events[1..]);
    }
  }

  /** In no run, whatever can be loaded, an answer finds the queue empty, whose front the code takes unseen. */
  lemma NeverEmptyFront(spool: seq<Sample>, events: seq<Event>)
    ensures !Run(Start(spool), events).crashed
  {
    RunSound(Start(spool), events);
  }

  // ---------------------------------------------------------------- files that cannot be loaded

  /**
   * An answer leaves the queue equal to what is under way exactly when it is a known file or the front can be read.
   * A file that cannot be loaded stays in front, and the next sample's answer is then used for it.
   */
  lemma AlignmentNeedsReadable(h: Handler, value: byte, next: WireByte, rest: seq<Sample>, unreadable: set<Sample>)
    requires IsAnswer(value) && next.AnswerTo? && h.goten != [] && h.goten[1..] == [next.sample] + rest
    ensures Answered(h, value, unreadable).goten == [next.sample] + rest
       <==> value == KNOWN_FILE || h.goten[0] !in unreadable
    ensures |h.goten| >= 2
    ensures var uses := Uses(h.goten, [AnswerTo(h.goten[0], value), next], unreadable);
            |uses| == 2 && uses[1] == Applied(next.sample,
              if value == KNOWN_FILE || h.goten[0] !in unreadable then next.sample else h.goten[0], next.value)
  {
    var wire := [AnswerTo(h.goten[0], value), next];
    assert wire[1..] == [next] && wire[1..][1..] == [];
    assert |h.goten[1..]| == |rest| + 1;
    assert h.goten[1..][0] == next.sample;
    var left := if value == NEW_FILE && h.goten[0] in unreadable then h.goten else h.goten[1..];
    assert Uses(left, [next], unreadable) == [Applied(next.sample, left[0], next.value)];
  }

  lemma FirstAnswer(wire: seq<WireByte>, rest: seq<Sample>)
    requires wire != []
    ensures Values(wire)[0] == wire[0].value && Values(wire)[1..] == Values(wire[1..])
    ensures Labels(wire) + rest == Label(wire[0]) + (Labels(wire[1..]) + rest)
  {
  }

  /** A file that cannot be loaded leaves more in the queue than is still under way. */
  lemma {:induction false} UnloadableStays(h: Handler, wire: seq<WireByte>, rest: seq<Sample>, unreadable: set<Sample>)
    requires WireOk(wire) && h.goten == Labels(wire) + rest && Unloadable(wire, unreadable)
    ensures Answers(Values(wire)) <= |h.goten|
    ensures |AnsweredAll(h, Values(wire), unreadable).goten| > |rest|
    decreases |wire|
  {
    AnswersAreLabels(wire);
    AnswersAreLabels(wire[1..]);
    var left := Labels(wire[1..]) + rest;
    FirstAnswer(wire, rest);
    if IsUnloadable(wire[0], unreadable) {
      assert h.goten[0] == wire[0].sample && Answered(h, wire[0].value, unreadable) == h;
      AnswersTakeOne(h, Values(wire[1..]), unreadable);
    } else {
      OneAnswer(h, wire[0], left, unreadable);
      UnloadableStays(Answered(h, wire[0].value, unreadable), wire[1..], rest, unreadable);
    }
  }

  lemma UnloadableBreaks(s: System, e: Event)
    requires Inv(s) && MeetsUnloadable(s, e)
    ensures !QueueAligned(Step(s, e))
  {
    var wire := s.toClient[..e.count];
    QueueSplit(s, e.count);
    AnswersAreLabels(wire);
    UnloadableStays(s.handler, wire, Labels(s.toClient[e.count..]) + Asked(s.toServer), e.unreadable);
    assert s.control.buffer + Values(wire) == Values(wire);
  }

  predicate AlwaysAligned(s: System, events: seq<Event>)
    decreases |events|
  {
    QueueAligned(s) && (events == [] || AlwaysAligned(Step(s, events[0]), events[1..]))
  }

  lemma {:induction false} AlignedIff(s: System, events: seq<Event>)
    requires Inv(s)
    ensures AlwaysAligned(s, events) <==> NeverUnloadable(s, events)
    decreases |events|
  {
    if events != [] {
      if MeetsUnloadable(s, events[0]) {
        UnloadableBreaks(s, events[0]);
      } else {
        StepInv(s, events[0]);
        AlignedIff(Step(s, events[0]), events[1..]);
      }
    }
  }

  /** In a run the queue is always what is under way if and only if every file that is asked for can be loaded. */
  lemma AlignedAlways(spool: seq<Sample>, events: seq<Event>)
    ensures AlwaysAligned(Start(spool), events) <==> NeverUnloadable(Start(spool), events)
  {
    StartInv(spool);
    AlignedIff(Start(spool), events);
  }

  lemma {:induction false} PlainsValues(bytes: seq<byte>)
    ensures Values(Plains(bytes)) == bytes
  {
    if bytes != [] {
      PlainsValues(bytes[1..]);
    }
  }

  /** A connection in control that was accepted with two samples in the queue. */
  function InControl(a: Sample, b: Sample): System {
    System(Handler([a, b], [], true, GSHS_CONNECTED), 1, Control(GCTRL_CTRL, []), false, Accepted,
           [Ready, Ask(a), Ask(b)], [], [a, b], [], false)
  }

  lemma RunFirst(s: System, e: Event, later: seq<Event>)
    ensures Run(s, [e] + later) == Run(Step(s, e), later)
  {
    assert ([e] + later)[1..] == later;
  }

  /** A dialogue that was greeted by the server and has read nothing yet. */
  function Greeting(goten: seq<Sample>, greeting: seq<byte>): System {
    System(Handler(goten, [], false, GSHS_CONNECTED), 1, Control(GCTRL_NULL, []), false, Greeted,
           [], Plains(greeting), goten, [], false)
  }

  /** The greeting is answered by a login. */
  lemma GreetingRead(goten: seq<Sample>, greeting: seq<byte>)
    requires |greeting| == 12
    ensures |Plains(greeting)| == 12
    ensures Step(Greeting(goten, greeting), ClientReads(12, {}))
         == Greeting(goten, greeting).(control := Control(GCTRL_AUTH, []), toServer := [Login(greeting[4..])],
                                       toClient := [])
  {
    PlainsValues(greeting);
    PlainsUnlabelled(greeting);
    UnlabelledUses(goten, Plains(greeting), {});
    assert Plains(greeting)[..12] == Plains(greeting) && Plains(greeting)[12..] == [] && [] + greeting == greeting;
    assert [] + [Login(greeting[4..])] == [Login(greeting[4..])];
  }

  /** The server's consent is answered by asking for the whole queue. */
  lemma ConsentRead(s: System)
    requires s.dialogues > 0 && !s.dropping && s.control == Control(GCTRL_AUTH, [])
    requires s.toServer == [] && s.toClient == [Plain(0xaa)] && s.history == []
    ensures Step(s, ClientReads(1, {}))
         == s.(handler := s.handler.(hasSocket := true), control := Control(GCTRL_CTRL, []),
               toServer := [Ready] + Asks(s.handler.goten), toClient := [])
  {
    var wire := [Plain(0xaa)];
    assert s.toClient[..1] == wire && s.toClient[1..] == [] && Values(wire) == [0xaa] && Labels(wire) == [];
    UnlabelledUses(s.handler.goten, wire, {});
    assert [] + ([Ready] + Asks(s.handler.goten)) == [Ready] + Asks(s.handler.goten);
  }

  function LoginEvents(greeting: seq<byte>, later: seq<Event>): seq<Event> {
    [DnsResolved] +
    ([ServerGreets(greeting)] + ([ClientReads(12, {})] + ([ServerReads(0xaa)] + ([ClientReads(1, {})] + later))))
  }

  lemma TwoAsks(a: Sample, b: Sample)
    ensures Asks([a, b]) == [Ask(a), Ask(b)]
  {
    assert ([a, b])[1..] == [b] && ([b])[1..] == [];
    assert Asks([b]) == [Ask(b)];
  }

  lemma LogsIn(a: Sample, b: Sample, greeting: seq<byte>, later: seq<Event>)
    requires |greeting| == 12
    ensures Run(Start([a, b]), LoginEvents(greeting, later)) == Run(InControl(a, b), later)
  {
    var e5 := [ClientReads(1, {})] + later;
    var e4 := [ServerReads(0xaa)] + e5;
    var e3 := [ClientReads(12, {})] + e4;
    var e2 := [ServerGreets(greeting)] + e3;
    var s1 := Step(Start([a, b]), DnsResolved);
    RunFirst(Start([a, b]), DnsResolved, e2);
    RunFirst(s1, ServerGreets(greeting), e3);
    var s2 := Greeting([a, b], greeting);
    assert Step(s1, ServerGreets(greeting)) == s2;
    GreetingRead([a, b], greeting);
    var s3 := Step(s2, ClientReads(12, {}));
    RunFirst(s2, ClientReads(12, {}), e4);
    RunFirst(s3, ServerReads(0xaa), e5);
    var s4 := Step(s3, ServerReads(0xaa));
    assert s4 == s3.(phase := Accepted, toServer := [], toClient := [Plain(0xaa)]);
    ConsentRead(s4);
    TwoAsks(a, b);
    RunFirst(s4, ClientReads(1, {}), later);
    assert Step(s4, ClientReads(1, {})) == InControl(a, b);
  }

  lemma OneNewFile(h: Handler, a: Sample)
    requires h.goten != [] && h.goten[0] == a
    ensures Answers([NEW_FILE]) == 1 && Pongs([NEW_FILE]) == [] && AnsweredAll(h, [NEW_FILE], {a}) == h
  {
    assert ([NEW_FILE])[1..] == [];
  }

  /** Two answers for new files, of which the first cannot be loaded. */
  lemma TwoNewFiles(h: Handler, a: Sample)
    requires |h.goten| >= 2 && h.goten[0] == a
    ensures var bytes := [NEW_FILE, NEW_FILE];
            Answers(bytes) == 2 && Pongs(bytes) == [] && AnsweredAll(h, bytes, {a}) == h
  {
    assert ([NEW_FILE, NEW_FILE])[1..] == [NEW_FILE];
    OneNewFile(h, a);
  }

  lemma TwoAnswers(a: Sample, b: Sample)
    ensures var wire := [AnswerTo(a, NEW_FILE), AnswerTo(b, NEW_FILE)];
            && Values(wire) == [NEW_FILE, NEW_FILE] && Labels(wire) == [a, b]
            && Uses([a, b], wire, {a}) == [Applied(a, a, NEW_FILE), Applied(b, a, NEW_FILE)]
  {
    var wire, second := [AnswerTo(a, NEW_FILE), AnswerTo(b, NEW_FILE)], [AnswerTo(b, NEW_FILE)];
    assert wire[1..] == second && second[1..] == [];
    assert Values(second) == [NEW_FILE] && Labels(second) == [b];
    assert Uses([a, b], second, {a}) == [Applied(b, a, NEW_FILE)];
  }

  /** The connection in control with both answers under way. */
  function Answering(a: Sample, b: Sample): System {
    InControl(a, b).(phase := Serving, toServer := [], toClient := [AnswerTo(a, NEW_FILE), AnswerTo(b, NEW_FILE)])
  }

  lemma ServesBoth(a: Sample, b: Sample, later: seq<Event>)
    ensures Run(InControl(a, b), [ServerReads(0)] + ([ServerReads(NEW_FILE)] + ([ServerReads(NEW_FILE)] + later)))
         == Run(Answering(a, b), later)
  {
    var s0 := InControl(a, b);
    var s1 := s0.(phase := Serving, toServer := [Ask(a), Ask(b)]);
    var s2 := s1.(toServer := [Ask(b)], toClient := [AnswerTo(a, NEW_FILE)]);
    var e2 := [ServerReads(NEW_FILE)] + later;
    RunFirst(s0, ServerReads(0), [ServerReads(NEW_FILE)] + e2);
    assert Step(s0, ServerReads(0)) == s1;
    RunFirst(s1, ServerReads(NEW_FILE), e2);
    assert Step(s1, ServerReads(NEW_FILE)) == s2;
    RunFirst(s2, ServerReads(NEW_FILE), later);
    assert Step(s2, ServerReads(NEW_FILE)) == Answering(a, b);
  }

  function UnloadableEvents(a: Sample): seq<Event> {
    [ServerReads(0)] + ([ServerReads(NEW_FILE)] + ([ServerReads(NEW_FILE)] + ([ClientReads(2, {a})] + [])))
  }

  /** The server asks for both files; the first one cannot be loaded, and is then given the second one's answer. */
  lemma UnloadableExample(a: Sample, b: Sample, greeting: seq<byte>)
    requires |greeting| == 12
    ensures var s := Run(Start([a, b]), LoginEvents(greeting, UnloadableEvents(a)));
            s.history == [Applied(a, a, NEW_FILE), Applied(b, a, NEW_FILE)] && s.handler.goten == [a, b]
  {
    var s, wire, read := Answering(a, b), [AnswerTo(a, NEW_FILE), AnswerTo(b, NEW_FILE)], ClientReads(2, {a});
    LogsIn(a, b, greeting, UnloadableEvents(a));
    ServesBoth(a, b, [read] + []);
    RunFirst(s, read, []);
    TwoAnswers(a, b);
    TwoNewFiles(s.handler, a);
    assert s.toClient[..2] == wire && [] + Values(wire) == Values(wire);
    assert [] + Uses([a, b], wire, {a}) == Uses([a, b], wire, {a});
  }

  // ---------------------------------------------------------------- what the client writes

  /** Every ping is answered, and nothing else is. */
  lemma {:induction false} PongsCounted(bytes: seq<byte>)
    ensures |Pongs(bytes)| == multiset(bytes)[0xff]
    ensures forall i :: 0 <= i < |Pongs(bytes)| ==> Pongs(bytes)[i] == Pong
  {
    if bytes == [] {
      assert multiset(bytes) == multiset{};
    } else {
      PongsCounted(bytes[1..]);
      CountFirst(bytes, 0xff);
    }
  }

  lemma CountFirst(bytes: seq<byte>, b: byte)
    requires bytes != []
    ensures multiset(bytes)[b] == multiset(bytes[1..])[b] + if bytes[0] == b then 1 else 0
  {
    assert bytes == [bytes[0]] + bytes[1..];
  }

  /** 0xaa asks for the front of the queue, 0x55 does without it, and no other byte touches it. */
  lemma AnswerBytes(h: Handler, b: byte, front: Sample, rest: seq<Sample>)
    requires h.goten == [front] + rest
    ensures Answered(h, b, {})
         == if b == 0xaa then h.(goten := rest, uploads := h.uploads + [front])
            else if b == 0x55 then h.(goten := rest) else h
  {
    assert h.goten[1..] == rest;
  }

  /** The dialogue fed with one message after the other, until it is dropped; all that it writes. */
  function ReadAll(h: Handler, c: Control, chunks: seq<seq<byte>>): Result
    decreases |chunks|
  {
    if chunks == [] then Result(h, c, CL_ASSIGN, [])
    else if !Answerable(h, c, chunks[0]) then Result(h, c, CL_DROP, [])
    else
      var first := Incoming(h, c, chunks[0], {});
      if first.level == CL_DROP then first
      else
        var later := ReadAll(first.handler, first.control, chunks[1..]);
        later.(writes := first.writes + later.writes)
  }

  /** A greeting of twelve bytes is answered by a login with the key in its last eight, however it is cut. */
  lemma {:induction false} LoginAnswers(h: Handler, c: Control, chunks: seq<seq<byte>>, greeting: seq<byte>)
    requires c.state == GCTRL_NULL && |c.buffer| < 12 && |greeting| == 12 && c.buffer + Flatten(chunks) == greeting
    ensures ReadAll(h, c, chunks) == Result(h, Control(GCTRL_AUTH, []), CL_ASSIGN, [Login(greeting[4..])])
    decreases |chunks|
  {
    if chunks != [] {
      var buffer, later := c.buffer + chunks[0], Flatten(chunks[1..]);
      Regroup(c.buffer, chunks[0], later);
      assert buffer + later == greeting;
      if |buffer| == 12 {
        assert later == [] && buffer == greeting;
        NothingMore(h, chunks[1..]);
        assert [Login(greeting[4..])] + [] == [Login(greeting[4..])];
      } else {
        LoginAnswers(h, c.(buffer := buffer), chunks[1..], greeting);
        assert [] + [Login(greeting[4..])] == [Login(greeting[4..])];
      }
    }
  }

  lemma {:induction false} NothingMore(h: Handler, chunks: seq<seq<byte>>)
    requires Flatten(chunks) == []
    ensures ReadAll(h, Control(GCTRL_AUTH, []), chunks) == Result(h, Control(GCTRL_AUTH, []), CL_ASSIGN, [])
    decreases |chunks|
  {
    if chunks != [] {
      assert chunks[0] == [] && [] + chunks[0] == [];
      NothingMore(h, chunks[1..]);
    }
  }

  /** The bytes of a greeting run past the twelfth without ever being twelve. */
  predicate Overruns(n: nat, chunks: seq<seq<byte>>)
    decreases |chunks|
  {
    chunks != [] && (n + |chunks[0]| > 12 || (n + |chunks[0]| < 12 && Overruns(n + |chunks[0]|, chunks[1..])))
  }

  /** A longer greeting ends the dialogue before it says anything, unless a cut leaves twelve bytes of it. */
  lemma {:induction false} GreetingTooLong(h: Handler, c: Control, chunks: seq<seq<byte>>)
    requires c.state == GCTRL_NULL && |c.buffer| < 12 && Overruns(|c.buffer|, chunks)
    ensures ReadAll(h, c, chunks).level == CL_DROP && ReadAll(h, c, chunks).writes == []
    decreases |chunks|
  {
    var buffer := c.buffer + chunks[0];
    if |buffer| < 12 {
      GreetingTooLong(h, c.(buffer := buffer), chunks[1..]);
    }
  }
}
