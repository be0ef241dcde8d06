/** The G.O.T.E.K. submission handler in spool mode, and its control dialogue. */
module Gotek {
  import opened Bytes

  /** A spooled file, and what identifies it to the server. */
  datatype Sample = Sample(fileName: string, hash: seq<byte>, evCID: nat)

  datatype Status = GSHS_RESOLVING | GSHS_WAITING_SHORT | GSHS_CONNECTED

  datatype DialogueState = GCTRL_NULL | GCTRL_AUTH | GCTRL_CTRL

  datatype ConsumeLevel = CL_ASSIGN | CL_DROP

  /** What the client writes to the control connection. */
  datatype ClientMsg = Login(sessionKey: seq<byte>) | Ready | Ask(sample: Sample) | Pong

  const NEW_FILE: byte := 0xaa
  const KNOWN_FILE: byte := 0x55
  const PING: byte := 0xff

  datatype Handler = Handler(goten: seq<Sample>, uploads: seq<Sample>, hasSocket: bool, status: Status)

  datatype Control = Control(state: DialogueState, buffer: seq<byte>)

  datatype Result = Result(handler: Handler, control: Control, level: ConsumeLevel, writes: seq<ClientMsg>)

  predicate IsAnswer(b: byte) {
    b == NEW_FILE || b == KNOWN_FILE
  }

  function Answers(bytes: seq<byte>): nat {
    if bytes == [] then 0 else (if IsAnswer(bytes[0]) then 1 else 0) + Answers(bytes[1..])
  }

  function Asks(samples: seq<Sample>): seq<ClientMsg> {
    if samples == [] then [] else [Ask(samples[0])] + Asks(samples[1..])
  }

  function Pongs(bytes: seq<byte>): seq<ClientMsg> {
    if bytes == [] then [] else (if bytes[0] == PING then [Pong] else []) + Pongs(bytes[1..])
  }

  /** A new file is uploaded and leaves the queue, unless it cannot be read. A known one just leaves. */
  function Answered(h: Handler, b: byte, unreadable: set<Sample>): Handler
    requires IsAnswer(b) ==> h.goten != []
  {
    if b == NEW_FILE then
      if h.goten[0] in unreadable then h
      else h.(goten := h.goten[1..], uploads := h.uploads + [h.goten[0]])
    else if b == KNOWN_FILE then h.(goten := h.goten[1..])
    else h
  }

  /** The loop over the bytes received while in control. */
  function AnsweredAll(h: Handler, bytes: seq<byte>, unreadable: set<Sample>): (r: Handler)
    requires Answers(bytes) <= |h.goten|
    ensures r.hasSocket == h.hasSocket && r.status == h.status
    decreases |bytes|
  {
    if bytes == [] then h else AnsweredAll(Answered(h, bytes[0], unreadable), bytes[1..], unreadable)
  }

  /** The answers in a message may not outnumber the queue: the code takes its front unseen. */
  predicate Answerable(h: Handler, c: Control, msg: seq<byte>) {
    c.state == GCTRL_CTRL ==> Answers(c.buffer + msg) <= |h.goten|
  }

  function Incoming(h: Handler, c: Control, msg: seq<byte>, unreadable: set<Sample>): Result
    requires Answerable(h, c, msg)
  {
    var buffer := c.buffer + msg;
    match c.state
    case GCTRL_NULL =>
      if |buffer| == 12 then Result(h, Control(GCTRL_AUTH, []), CL_ASSIGN, [Login(buffer[4..])])
      else Result(h, c.(buffer := buffer), if |buffer| > 12 then CL_DROP else CL_ASSIGN, [])
    case GCTRL_AUTH =>
      if |buffer| != 1 then Result(h, c.(buffer := buffer), CL_ASSIGN, [])
      else if buffer[0] != 0xaa then Result(h, c.(buffer := buffer), CL_DROP, [])
      else Result(h.(hasSocket := true), Control(GCTRL_CTRL, []), CL_ASSIGN, [Ready] + Asks(h.goten))
    case GCTRL_CTRL =>
      Result(AnsweredAll(h, buffer, unreadable), Control(GCTRL_CTRL, []), CL_ASSIGN, Pongs(buffer))
  }

  function Submitted(h: Handler, s: Sample): (Handler, seq<ClientMsg>) {
    (h.(goten := h.goten + [s]), if h.hasSocket then [Ask(s)] else [])
  }

  /** The destructor of the control dialogue tells the handler. */
  function Lost(h: Handler): Handler {
    h.(hasSocket := false, status := if h.status == GSHS_CONNECTED then GSHS_WAITING_SHORT else h.status)
  }

  class Socket {
    var m_Written: seq<ClientMsg>

    constructor ()
      ensures m_Written == []
    {
      m_Written := [];
    }

    method DoWrite(msg: ClientMsg)
      modifies this
      ensures m_Written == old(m_Written) + [msg]
    {
      m_Written := m_Written + [msg];
    }
  }

  class GotekSubmitHandler {
    var m_CTRLSocket: Socket?
    var m_Goten: seq<Sample>
    var m_ControlConnStatus: Status
    /** The samples sent over data connections of their own. */
    var m_Uploads: seq<Sample>

    constructor (spool: seq<Sample>)
      ensures State() == Handler(spool, [], false, GSHS_RESOLVING)
    {
      m_CTRLSocket, m_Goten, m_ControlConnStatus, m_Uploads := null, spool, GSHS_RESOLVING, [];
    }

    ghost function State(): Handler
      reads this
    {
      Handler(m_Goten, m_Uploads, m_CTRLSocket != null, m_ControlConnStatus)
    }

    /** ctx: the download as written to the spool directory. */
    method Submit(ctx: Sample)
      modifies this, m_CTRLSocket
      ensures m_CTRLSocket == old(m_CTRLSocket)
      ensures State() == Submitted(old(State()), ctx).0
      ensures m_CTRLSocket != null ==>
                m_CTRLSocket.m_Written == old(m_CTRLSocket.m_Written) + Submitted(old(State()), ctx).1
    {
      m_Goten := m_Goten + [ctx];
      if m_CTRLSocket != null {
        m_CTRLSocket.DoWrite(Ask(ctx));
      }
    }

    method SetSocket(s: Socket)
      modifies this`m_CTRLSocket
      ensures m_CTRLSocket == s
    {
      m_CTRLSocket := s;
    }

    method PopGote()
      requires m_Goten != []
      modifies this`m_Goten
      ensures State() == Answered(old(State()), KNOWN_FILE, {})
    {
      m_Goten := m_Goten[1..];
    }

    method SendGote(unreadable: set<Sample>) returns (ok: bool)
      requires m_Goten != []
      modifies this`m_Goten, this`m_Uploads
      ensures State() == Answered(old(State()), NEW_FILE, unreadable)
      ensures ok == (old(m_Goten)[0] !in unreadable)
    {
      var ctx := m_Goten[0];
      if ctx in unreadable {
        return false;
      }
      m_Uploads := m_Uploads + [ctx];
      PopGote();
      return true;
    }

    method ChildConnectionEstablished()
      requires m_CTRLSocket != null
      modifies m_CTRLSocket
      ensures m_CTRLSocket.m_Written == old(m_CTRLSocket.m_Written) + Asks(m_Goten)
    {
      var i := 0;
      while i < |m_Goten|
        invariant 0 <= i <= |m_Goten|
        invariant m_CTRLSocket.m_Written + Asks(m_Goten[i..]) == old(m_CTRLSocket.m_Written) + Asks(m_Goten)
      {
        assert m_Goten[i..][1..] == m_Goten[i+1..];
        m_CTRLSocket.DoWrite(Ask(m_Goten[i]));
        i := i + 1;
      }
    }

    method ChildConnectionLost()
      modifies this
      ensures State() == Lost(old(State()))
    {
      m_CTRLSocket := null;
      match m_ControlConnStatus
      case GSHS_RESOLVING =>
      case GSHS_WAITING_SHORT => m_ControlConnStatus := GSHS_WAITING_SHORT;
      case GSHS_CONNECTED => m_ControlConnStatus := GSHS_WAITING_SHORT;
    }

    /** The answer of the name server opens the first connection; a later one only asks for a quick retry. */
    method DnsResolved() returns (dialogue: GotekCTRLDialogue?)
      modifies this`m_ControlConnStatus
      ensures (dialogue != null) == (old(m_ControlConnStatus) == GSHS_RESOLVING)
      ensures dialogue != null ==> fresh(dialogue) && fresh(dialogue.m_Socket) && dialogue.m_HandlingFather == this
                                   && dialogue.m_Socket.m_Written == [] && dialogue.State() == Control(GCTRL_NULL, [])
      ensures m_ControlConnStatus == if dialogue != null then GSHS_CONNECTED else old(m_ControlConnStatus)
    {
      dialogue := null;
      if m_ControlConnStatus == GSHS_RESOLVING {
        var socket := new Socket();
        dialogue := new GotekCTRLDialogue(socket, this);
        m_ControlConnStatus := GSHS_CONNECTED;
      }
    }

    /** The timer reopens a lost connection. */
    method HandleEvent() returns (dialogue: GotekCTRLDialogue?)
      modifies this`m_ControlConnStatus
      ensures (dialogue != null) == (old(m_ControlConnStatus) == GSHS_WAITING_SHORT)
      ensures dialogue != null ==> fresh(dialogue) && fresh(dialogue.m_Socket) && dialogue.m_HandlingFather == this
                                   && dialogue.m_Socket.m_Written == [] && dialogue.State() == Control(GCTRL_NULL, [])
      ensures m_ControlConnStatus == if dialogue != null then GSHS_CONNECTED else old(m_ControlConnStatus)
    {
      dialogue := null;
      if m_ControlConnStatus == GSHS_WAITING_SHORT {
        var socket := new Socket();
        dialogue := new GotekCTRLDialogue(socket, this);
        m_ControlConnStatus := GSHS_CONNECTED;
      }
    }
  }

  class GotekCTRLDialogue {
    const m_Socket: Socket
    const m_HandlingFather: GotekSubmitHandler
    var m_Buffer: seq<byte>
    var m_State: DialogueState

    constructor (socket: Socket, handlingFather: GotekSubmitHandler)
      ensures m_Socket == socket && m_HandlingFather == handlingFather
      ensures State() == Control(GCTRL_NULL, [])
    {
      m_Socket, m_HandlingFather := socket, handlingFather;
      m_Buffer, m_State := [], GCTRL_NULL;
    }

    ghost function State(): Control
      reads this
    {
      Control(m_State, m_Buffer)
    }

    method IncomingData(msg: seq<byte>, unreadable: set<Sample>) returns (level: ConsumeLevel)
      requires Answerable(m_HandlingFather.State(), State(), msg)
      modifies this, m_HandlingFather, m_Socket
      ensures var r := Incoming(old(m_HandlingFather.State()), old(State()), msg, unreadable);
              && m_HandlingFather.State() == r.handler && State() == r.control && level == r.level
              && m_Socket.m_Written == old(m_Socket.m_Written) + r.writes
      ensures m_HandlingFather.m_CTRLSocket in {old(m_HandlingFather.m_CTRLSocket), m_Socket}
    {
      m_Buffer := m_Buffer + msg;
      level := CL_ASSIGN;
      match m_State
      case GCTRL_NULL =>
        if |m_Buffer| == 12 {
          m_Socket.DoWrite(Login(m_Buffer[4..]));
          m_Buffer := [];
          m_State := GCTRL_AUTH;
        } else if |m_Buffer| > 12 {
          level := CL_DROP;
        }
      case GCTRL_AUTH =>
        if |m_Buffer| == 1 {
          if m_Buffer[0] == 0xaa {
            m_Socket.DoWrite(Ready);
            m_HandlingFather.SetSocket(m_Socket);
            m_State := GCTRL_CTRL;
            m_Buffer := [];
            m_HandlingFather.ChildConnectionEstablished();
          } else {
            level := CL_DROP;
          }
        }
      case GCTRL_CTRL =>
        HandleAnswers(unreadable);
    }

    method HandleAnswers(unreadable: set<Sample>)
      requires Answers(m_Buffer) <= |m_HandlingFather.m_Goten|
      modifies this`m_Buffer, m_HandlingFather, m_Socket
      ensures m_Buffer == [] && m_HandlingFather.m_CTRLSocket == old(m_HandlingFather.m_CTRLSocket)
      ensures m_HandlingFather.State() == AnsweredAll(old(m_HandlingFather.State()), old(m_Buffer), unreadable)
      ensures m_Socket.m_Written == old(m_Socket.m_Written) + Pongs(old(m_Buffer))
    {
      while |m_Buffer| > 0
        invariant m_HandlingFather.m_CTRLSocket == old(m_HandlingFather.m_CTRLSocket)
        invariant Answers(m_Buffer) <= |m_HandlingFather.m_Goten|
        invariant AnsweredAll(m_HandlingFather.State(), m_Buffer, unreadable)
               == AnsweredAll(old(m_HandlingFather.State()), old(m_Buffer), unreadable)
        invariant m_Socket.m_Written + Pongs(m_Buffer) == old(m_Socket.m_Written) + Pongs(old(m_Buffer))
      {
        if m_Buffer[0] == NEW_FILE {
          var _ := m_HandlingFather.SendGote(unreadable);
        } else if m_Buffer[0] == KNOWN_FILE {
          m_HandlingFather.PopGote();
        } else if m_Buffer[0] == PING {
          m_Socket.DoWrite(Pong);
        }
        m_Buffer := m_Buffer[1..];
      }
    }
  }
}
