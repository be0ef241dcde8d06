/** The control connection of the FTP client. */
module Ftp {
  import opened Chars
  import opened Options

  datatype State = FTP_CONNECTED | FTP_USER | FTP_PASS | FTP_TYPE | FTP_CWD | FTP_PORT | FTP_RETR | FTP_QUIT

  datatype ConsumeLevel = CL_ASSIGN | CL_DROP

  datatype Command =
    | USER(name: string)
    | PASS(password: string)
    | TYPE
    | CWD(dir: string)
    | PORT(ip: seq<nat>, port: nat)
    | RETR(file: string)
    | QUIT

  const DF_TYPE_BINARY := 1

  datatype Download = Download(user: string, pass: string, dir: string, file: string, flags: nat)

  /** The local address and the port that sendPort finds, if it can bind one. */
  datatype Bound = Bound(ip: seq<nat>, port: nat)

  function Rank(s: State): nat {
    match s
    case FTP_CONNECTED => 0
    case FTP_USER => 1
    case FTP_PASS => 2
    case FTP_TYPE => 3
    case FTP_CWD => 4
    case FTP_PORT => 5
    case FTP_RETR => 6
    case FTP_QUIT => 7
  }

  /** What a command looks like on the wire. */
  function Text(c: Command): string {
    match c
    case USER(name) => "USER " + name + "\r\n"
    case PASS(password) => "PASS " + password + "\r\n"
    case TYPE => "TYPE I\r\n"
    case CWD(dir) => "CWD " + dir + "\r\n"
    case PORT(ip, port) => "PORT " + Joined(ip) + Decimal(port / 0x100) + "," + Decimal(port % 0x100) + "\r\n"
    case RETR(file) => "RETR " + file + "\r\n"
    case QUIT => "QUIT\r\n"
  }

  function Joined(ip: seq<nat>): string {
    if ip == [] then "" else Decimal(ip[0]) + "," + Joined(ip[1..])
  }

  /** strncmp with the three digits of a reply. */
  predicate Replies(line: string, code: string) {
    |code| == 3 && |line| >= 3 && line[..3] == code
  }

  // ---------------------------------------------------------------- one line of the server

  /** The state and the commands after a line, and whether the connection is dropped. */
  datatype Progress = Progress(state: State, sent: seq<Command>, dropped: bool)

  /** What an attempt to bind a port gives: nothing, a socket that others listen on as well, or one of its own. */
  datatype Binding = Refused | Shared | Unused

  /** Ports that some worms cannot compute. */
  predicate Skipped(port: nat) {
    port / 16 % 16 == 0
  }

  /** The port of the socket that the search from port i on ends with; socket: the one it had before. */
  function PortSearch(i: nat, maxport: nat, binding: nat -> Binding, socket: Option<nat>): Option<nat>
    decreases maxport - i
  {
    if i >= maxport then socket
    else if Skipped(i) then PortSearch(i + 1, maxport, binding, socket)
    else if binding(i) == Unused then Some(i)
    else PortSearch(i + 1, maxport, binding, if binding(i) == Shared then Some(i) else None)
  }

  predicate IsFree(p: nat, binding: nat -> Binding) {
    !Skipped(p) && binding(p) == Unused
  }

  predicate NoneFree(from: nat, to: nat, binding: nat -> Binding) {
    forall q: nat :: from <= q < to ==> !IsFree(q, binding)
  }

  predicate AllSkipped(from: nat, to: nat) {
    forall q: nat :: from <= q < to ==> Skipped(q)
  }

  /** The first port that nobody uses ends the search. */
  lemma {:induction false} FirstFreePort(i: nat, p: nat, maxport: nat, binding: nat -> Binding, socket: Option<nat>)
    requires i <= p < maxport && IsFree(p, binding) && NoneFree(i, p, binding)
    ensures PortSearch(i, maxport, binding, socket) == Some(p)
    decreases p - i
  {
    if i < p {
      assert !IsFree(i, binding);
      var next := if Skipped(i) then socket else if binding(i) == Shared then Some(i) else None;
      FirstFreePort(i + 1, p, maxport, binding, next);
    }
  }

  lemma {:induction false} NothingTried(i: nat, maxport: nat, binding: nat -> Binding, socket: Option<nat>)
    requires AllSkipped(i, maxport)
    ensures PortSearch(i, maxport, binding, socket) == socket
    decreases maxport - i
  {
    if i < maxport {
      NothingTried(i + 1, maxport, binding, socket);
    }
  }

  /** The search ends with a port that nobody uses if and only if there is one. */
  lemma {:induction false} UnusedPortFound(i: nat, maxport: nat, binding: nat -> Binding, socket: Option<nat>)
    requires socket.Some? ==> !IsFree(socket.value, binding)
    ensures var found := PortSearch(i, maxport, binding, socket);
            (found.Some? && IsFree(found.value, binding)) <==> !NoneFree(i, maxport, binding)
    decreases maxport - i
  {
    if i < maxport && !IsFree(i, binding) {
      var next := if Skipped(i) then socket else if binding(i) == Shared then Some(i) else None;
      UnusedPortFound(i + 1, maxport, binding, next);
      assert NoneFree(i + 1, maxport, binding) ==> NoneFree(i, maxport, binding);
    }
  }

  /** Without one the last attempt counts: a port in use, or none, although some port before could be had. */
  lemma {:induction false} LastPortTried(i: nat, p: nat, maxport: nat, binding: nat -> Binding, socket: Option<nat>)
    requires i <= p < maxport && NoneFree(i, maxport, binding) && !Skipped(p) && AllSkipped(p + 1, maxport)
    ensures PortSearch(i, maxport, binding, socket) == if binding(p) == Shared then Some(p) else None
    decreases p - i
  {
    assert !IsFree(i, binding);
    var next := if Skipped(i) then socket else if binding(i) == Shared then Some(i) else None;
    if i < p {
      LastPortTried(i + 1, p, maxport, binding, next);
    } else {
      NothingTried(i + 1, maxport, binding, next);
    }
  }

  /** The search stays within its range, and never gives a port whose low byte has one hexadecimal digit only. */
  lemma {:induction false} PortInRange(i: nat, maxport: nat, binding: nat -> Binding, socket: Option<nat>)
    ensures var found := PortSearch(i, maxport, binding, socket);
            found == socket || (found.Some? ==> i <= found.value < maxport && found.value % 0x100 >= 0x10)
    decreases maxport - i
  {
    if i < maxport {
      LowByte(i);
      var next := if Skipped(i) then socket else if binding(i) == Shared then Some(i) else None;
      PortInRange(i + 1, maxport, binding, next);
    }
  }

  lemma LowByte(port: nat)
    ensures Skipped(port) <==> port % 0x100 < 0x10
  {
    var q, r := port / 0x100, port % 0x100;
    assert port == 0x100 * q + r;
    assert port / 16 == 16 * q + r / 16;
  }

  function PortOf(bound: Option<Bound>): seq<Command> {
    if bound.Some? then [PORT(bound.value.ip, bound.value.port)] else []
  }

  /** Into the directory first, if there is one. */
  function ToFile(p: Progress, d: Download, bound: Option<Bound>): Progress {
    if d.dir != "" then Progress(FTP_CWD, p.sent + [CWD(d.dir)], false)
    else Progress(FTP_PORT, p.sent + PortOf(bound), false)
  }

  function AfterPort(p: Progress, line: string, d: Download): Progress {
    if Replies(line, "200") then Progress(FTP_RETR, p.sent + [RETR(d.file)], false) else p
  }

  function AfterUser(p: Progress, line: string, d: Download): Progress {
    if Replies(line, "331") then Progress(FTP_PASS, p.sent + [PASS(d.pass)], false) else p
  }

  /** Before the transfer. Two states go on to the next state's test with the same line. */
  function LineBefore(p: Progress, line: string, d: Download, bound: Option<Bound>): Progress
    requires Rank(p.state) < 6
  {
    match p.state
    case FTP_CONNECTED =>
      AfterUser(if Replies(line, "220") then Progress(FTP_USER, p.sent + [USER(d.user)], false) else p, line, d)
    case FTP_USER => AfterUser(p, line, d)
    case FTP_PASS =>
      if !Replies(line, "230") then p
      else if d.flags != 0 then
        if d.flags % 2 == DF_TYPE_BINARY then Progress(FTP_TYPE, p.sent + [TYPE], false) else p
      else ToFile(p, d, bound)
    case FTP_TYPE => if Replies(line, "200") then ToFile(p, d, bound) else p
    case FTP_CWD =>
      AfterPort(if Replies(line, "250") then Progress(FTP_PORT, p.sent + PortOf(bound), false) else p, line, d)
    case FTP_PORT => AfterPort(p, line, d)
  }

  function LineAfter(p: Progress, line: string): Progress
    requires Rank(p.state) >= 6
  {
    if p.state == FTP_RETR then
      if Replies(line, "226") then Progress(FTP_QUIT, p.sent + [QUIT], false) else p
    else if Replies(line, "221") then p.(dropped := true) else p
  }

  function Line(p: Progress, line: string, d: Option<Download>, bound: Option<Bound>): Progress
    requires Rank(p.state) < 6 ==> d.Some?
  {
    if Rank(p.state) < 6 then LineBefore(p, line, d.value, bound) else LineAfter(p, line)
  }

  // ---------------------------------------------------------------- the stream of the server

  /** A dialogue between two messages. Nothing is delivered to one that was dropped. */
  datatype Dialogue = Dialogue(progress: Progress, buffer: string, download: Option<Download>)

  predicate Broken(d: Dialogue) {
    d.download.None? && Rank(d.progress.state) < 6
  }

  /** Text of the server behind an unfinished line. After a drop the rest is not looked at. */
  function Scan(p: Progress, line: string, text: string, d: Option<Download>, bound: Option<Bound>): (Progress, string)
    requires Rank(p.state) < 6 ==> d.Some?
    decreases |text|
  {
    if p.dropped then (p, "")
    else if text == "" then (p, line)
    else if text[0] == '\n' then Scan(Line(p, line, d, bound), "", text[1..], d, bound)
    else Scan(p, line + [text[0]], text[1..], d, bound)
  }

  function Incoming(d: Dialogue, data: string, bound: Option<Bound>): Dialogue {
    if d.progress.dropped then d
    else if Broken(d) then d.(progress := d.progress.(dropped := true), buffer := "")
    else
      var (p, rest) := Scan(d.progress, d.buffer, data, d.download, bound);
      d.(progress := p, buffer := rest)
  }

  function Timeout(d: Dialogue): Dialogue {
    if d.progress.dropped then d
    else if d.progress.state == FTP_RETR then d.(progress := Progress(FTP_QUIT, d.progress.sent + [QUIT], false))
    else d.(progress := d.progress.(dropped := true), buffer := "")
  }

  // ---------------------------------------------------------------- the dialogue

  class CTRLDialogue {
    var m_State: State
    var m_Download: Option<Download>
    var m_Buffer: string
    /** What was given to the socket, spelled by Text. */
    var m_Sent: seq<Command>

    constructor (down: Option<Download>)
      ensures Shown(false) == Dialogue(Progress(FTP_CONNECTED, [], false), "", down)
    {
      m_State, m_Download, m_Buffer, m_Sent := FTP_CONNECTED, down, "", [];
    }

    ghost function At(dropped: bool): Progress
      reads this
    {
      Progress(m_State, m_Sent, dropped)
    }

    ghost function Shown(dropped: bool): Dialogue
      reads this
    {
      Dialogue(At(dropped), if dropped then "" else m_Buffer, m_Download)
    }

    /** The data connection has taken the download over. */
    method SetDownload(down: Option<Download>)
      modifies this
      ensures Shown(false) == old(Shown(false)).(download := down)
    {
      m_Download := down;
    }

    /** The search for a port in sendPort. */
    static method FindPort(minport: nat, maxport: nat, binding: nat -> Binding) returns (socket: Option<nat>)
      requires maxport < 0x1_0000
      ensures socket == PortSearch(minport, maxport, binding, None)
    {
      socket := None;
      var i := minport;
      while i < maxport
        invariant PortSearch(minport, maxport, binding, None) == PortSearch(i, maxport, binding, socket)
      {
        if !Skipped(i) {
          socket := if binding(i) == Refused then None else Some(i);
          if binding(i) == Unused {
            return;
          }
        }
        i := i + 1;
      }
    }

    /** bound: where FindPort's socket listens. */
    method SendPort(bound: Option<Bound>)
      modifies this`m_Sent
      ensures m_Sent == old(m_Sent) + PortOf(bound)
    {
      if bound.Some? {
        m_Sent := m_Sent + [PORT(bound.value.ip, bound.value.port)];
      }
    }

    method SendCWDOrPort(d: Download, bound: Option<Bound>)
      modifies this`m_State, this`m_Sent
      ensures At(false) == ToFile(old(At(false)), d, bound)
    {
      if d.dir != "" {
        m_Sent := m_Sent + [CWD(d.dir)];
        m_State := FTP_CWD;
      } else {
        SendPort(bound);
        m_State := FTP_PORT;
      }
    }

    /** The switch over the states. */
    method HandleLine(line: string, bound: Option<Bound>) returns (level: ConsumeLevel)
      requires Rank(m_State) < 6 ==> m_Download.Some?
      modifies this`m_State, this`m_Sent
      ensures At(level.CL_DROP?) == Line(old(At(false)), line, m_Download, bound)
    {
      level := CL_ASSIGN;
      match m_State
      case FTP_CONNECTED =>
        if Replies(line, "220") {
          m_Sent := m_Sent + [USER(m_Download.value.user)];
          m_State := FTP_USER;
        }
        if Replies(line, "331") {
          m_Sent := m_Sent + [PASS(m_Download.value.pass)];
          m_State := FTP_PASS;
        }
      case FTP_USER =>
        if Replies(line, "331") {
          m_Sent := m_Sent + [PASS(m_Download.value.pass)];
          m_State := FTP_PASS;
        }
      case FTP_PASS =>
        if Replies(line, "230") {
          if m_Download.value.flags != 0 {
            if m_Download.value.flags % 2 == DF_TYPE_BINARY {
              m_Sent := m_Sent + [TYPE];
              m_State := FTP_TYPE;
            }
          } else {
            SendCWDOrPort(m_Download.value, bound);
          }
        }
      case FTP_TYPE =>
        if Replies(line, "200") {
          SendCWDOrPort(m_Download.value, bound);
        }
      case FTP_CWD =>
        if Replies(line, "250") {
          SendPort(bound);
          m_State := FTP_PORT;
        }
        if Replies(line, "200") {
          m_Sent := m_Sent + [RETR(m_Download.value.file)];
          m_State := FTP_RETR;
        }
      case FTP_PORT =>
        if Replies(line, "200") {
          m_Sent := m_Sent + [RETR(m_Download.value.file)];
          m_State := FTP_RETR;
        }
      case FTP_RETR =>
        if Replies(line, "226") {
          m_Sent := m_Sent + [QUIT];
          m_State := FTP_QUIT;
        }
      case FTP_QUIT =>
        if Replies(line, "221") {
          return CL_DROP;
        }
    }

    method IncomingData(data: string, bound: Option<Bound>) returns (level: ConsumeLevel)
      requires '\n' !in m_Buffer
      modifies this`m_State, this`m_Sent, this`m_Buffer
      ensures Shown(level.CL_DROP?) == Incoming(old(Shown(false)), data, bound)
      ensures level.CL_ASSIGN? ==> '\n' !in m_Buffer
    {
      if m_Download == None && Rank(m_State) < 6 {
        return CL_DROP;
      }
      ghost var before := m_Buffer;
      ghost var whole := Scan(At(false), before, data, m_Download, bound);
      m_Buffer := m_Buffer + data;
      var iStart, iStopp := 0, 0;
      ScanUnbroken(At(false), before, data, m_Download, bound);
      while iStopp < |m_Buffer|
        invariant 0 <= iStart <= iStopp <= |m_Buffer|
        invariant Rank(m_State) < 6 ==> m_Download.Some?
        invariant '\n' !in m_Buffer[iStart..iStopp]
        invariant whole == Scan(At(false), m_Buffer[iStart..iStopp], m_Buffer[iStopp..], m_Download, bound)
      {
        LineGrows(m_Buffer, iStart, iStopp);
        if m_Buffer[iStopp] == '\n' {
          var drop := HandleLine(m_Buffer[iStart..iStopp], bound);
          if drop == CL_DROP {
            return CL_DROP;
          }
          iStopp := iStopp + 1;
          iStart := iStopp;
        } else {
          iStopp := iStopp + 1;
        }
      }
      m_Buffer := m_Buffer[iStart..];
      return CL_ASSIGN;
    }

    method HandleTimeout() returns (level: ConsumeLevel)
      modifies this`m_State, this`m_Sent
      ensures Shown(level.CL_DROP?) == Timeout(old(Shown(false)))
    {
      if m_State == FTP_RETR {
        m_Sent := m_Sent + [QUIT];
        m_State := FTP_QUIT;
        return CL_ASSIGN;
      }
      return CL_DROP;
    }
  }

  lemma LineGrows(s: string, i: nat, j: nat)
    requires i <= j < |s|
    ensures s[j..] != "" && s[j..][0] == s[j] && s[j..][1..] == s[j+1..]
    ensures s[i..j] + [s[j]] == s[i..j+1] && s[j+1..j+1] == ""
  {
  }

  /** Starting over at the beginning of an unfinished line changes nothing. */
  lemma {:induction false} ScanUnbroken(p: Progress, line: string, text: string,
                                        d: Option<Download>, bound: Option<Bound>)
    requires (Rank(p.state) < 6 ==> d.Some?) && '\n' !in line && !p.dropped
    ensures Scan(p, "", line + text, d, bound) == Scan(p, line, text, d, bound)
  {
    ScanPrefix(p, "", line, text, d, bound);
    assert "" + line == line;
  }

  lemma {:induction false} ScanPrefix(p: Progress, a: string, b: string, text: string,
                                      d: Option<Download>, bound: Option<Bound>)
    requires (Rank(p.state) < 6 ==> d.Some?) && '\n' !in b && !p.dropped
    ensures Scan(p, a, b + text, d, bound) == Scan(p, a + b, text, d, bound)
    decreases |b|
  {
    if b == "" {
      assert b + text == text && a + b == a;
    } else {
      assert (b + text)[0] == b[0] && (b + text)[1..] == b[1..] + text;
      assert a + [b[0]] + b[1..] == a + b;
      ScanPrefix(p, a + [b[0]], b[1..], text, d, bound);
    }
  }
}
