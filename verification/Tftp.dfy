/** The TFTP client dialogue: a stop-and-wait receiver for one file. */
module Tftp {
  import opened Bytes

  const RRQ := 1
  const DATA := 3
  const ACK := 4
  const ERROR := 5

  /** The length below which a datagram is taken as the last one, and the size the buffer may not pass. */
  const LAST_PACKET := 512
  const HARD_LIMIT := 1024 * 1024 * 4

  datatype ConsumeLevel = CL_ASSIGN | CL_DROP

  /** closed: the socket was closed. submissions: the contents handed to the submit manager. */
  datatype Client = Client(
    maxFileSize: nat,
    maxRetries: nat,
    retries: nat,
    blocks: nat,
    lastSend: seq<byte>,
    buffer: seq<byte>,
    closed: bool,
    submissions: seq<seq<byte>>)

  datatype Outcome = Outcome(client: Client, level: ConsumeLevel, replies: seq<seq<byte>>)

  function Request(file: seq<byte>): seq<byte> {
    [0, RRQ] + file + [0] + Octet() + [0]
  }

  function Octet(): seq<byte> {
    [111, 99, 116, 101, 116]
  }

  function Ack(block: nat): seq<byte>
    requires block < 0x1_0000
  {
    [0, ACK] + BigEndian16(block)
  }

  function Opcode(msg: seq<byte>): nat
    requires |msg| >= 4
  {
    FromBigEndian16(msg[0], msg[1])
  }

  function BlockNumber(msg: seq<byte>): (n: nat)
    requires |msg| >= 4
    ensures n < 0x1_0000
  {
    FromBigEndian16(msg[2], msg[3])
  }

  function Incoming(c: Client, msg: seq<byte>): Outcome
    requires |msg| >= 4
  {
    if Opcode(msg) == ERROR then Outcome(c.(closed := true), CL_ASSIGN, [])
    else if Opcode(msg) != DATA then Outcome(c, CL_ASSIGN, [])
    else
      var block := BlockNumber(msg);
      var c1 := c.(retries := 0);
      if block != c.blocks + 1 then Outcome(c1, CL_ASSIGN, [])
      else
        var c2 := c1.(blocks := c.blocks + 1, lastSend := Ack(block));
        if |c.buffer| + |msg| - 4 > c.maxFileSize then Outcome(c2.(closed := true), CL_DROP, [Ack(block)])
        else
          var c3 := c2.(buffer := c.buffer + msg[4..]);
          if |msg| < LAST_PACKET then
            Outcome(c3.(closed := true, submissions := c.submissions + [c3.buffer]), CL_ASSIGN, [Ack(block)])
          else
            Outcome(c3, if |c3.buffer| > HARD_LIMIT then CL_DROP else CL_ASSIGN, [Ack(block)])
  }

  function Timeout(c: Client): Outcome {
    var c1 := c.(retries := c.retries + 1);
    if c1.retries < c.maxRetries then Outcome(c1, CL_ASSIGN, [c.lastSend]) else Outcome(c1, CL_DROP, [])
  }

  class TFTPDialogue {
    var m_MaxFileSize: nat
    var m_MaxRetries: nat
    var m_Retries: nat
    var m_Blocks: nat
    var m_LastSendPacket: array?<byte>
    var m_LastSendLength: nat
    /** The download's buffer, the socket's status, and what was submitted. */
    var m_Buffer: seq<byte>
    var m_Closed: bool
    var m_Submissions: seq<seq<byte>>

    constructor (maxFileSize: nat, maxRetries: nat)
      ensures m_MaxFileSize == maxFileSize && m_MaxRetries == maxRetries && m_Retries == 0 && m_Blocks == 0
      ensures m_LastSendPacket == null && m_Buffer == [] && !m_Closed && m_Submissions == []
    {
      m_MaxFileSize, m_MaxRetries, m_Retries, m_Blocks := maxFileSize, maxRetries, 0, 0;
      m_LastSendPacket, m_LastSendLength := null, 0;
      m_Buffer, m_Closed, m_Submissions := [], false, [];
    }

    /** A request has been formed, in a buffer that any acknowledgement fits. */
    ghost predicate Valid()
      reads this, m_LastSendPacket
    {
      m_LastSendPacket != null && m_LastSendLength <= m_LastSendPacket.Length && 4 <= m_LastSendPacket.Length
    }

    ghost function State(): Client
      requires Valid()
      reads this, m_LastSendPacket
    {
      Client(m_MaxFileSize, m_MaxRetries, m_Retries, m_Blocks, m_LastSendPacket[..m_LastSendLength],
             m_Buffer, m_Closed, m_Submissions)
    }

    /** file is a C string: the zero behind it is not part of it. */
    method SetRequest(file: seq<byte>) returns (length: nat)
      requires 0 !in file
      modifies this`m_LastSendPacket, this`m_LastSendLength
      ensures Valid() && fresh(m_LastSendPacket)
      ensures length == m_LastSendLength == |file| + 9 && State().lastSend == Request(file)
    {
      m_LastSendPacket := new byte[|file| + 9](_ => 0);
      m_LastSendPacket[0], m_LastSendPacket[1] := 0, RRQ;
      CopyString(m_LastSendPacket, 2, file);
      CopyString(m_LastSendPacket, |file| + 3, Octet());
      m_LastSendLength := |file| + 9;
      length := |file| + 9;
      assert m_LastSendPacket[..] == m_LastSendPacket[..2] + m_LastSendPacket[2..|file| + 3]
                                     + m_LastSendPacket[|file| + 3..];
    }

    /** strcpy: the string and the zero behind it. */
    static method CopyString(to: array<byte>, at: nat, s: seq<byte>)
      requires at + |s| < to.Length
      modifies to
      ensures to[..at] == old(to[..at]) && to[at + |s| + 1..] == old(to[at + |s| + 1..])
      ensures to[at..at + |s| + 1] == s + [0]
    {
      var i := 0;
      while i < |s|
        invariant 0 <= i <= |s|
        invariant to[at..at + i] == s[..i]
        invariant to[..at] == old(to[..at])
        invariant forall k :: at + |s| < k < to.Length ==> to[k] == old(to[k])
      {
        to[at + i] := s[i];
        i := i + 1;
      }
      to[at + |s|] := 0;
    }

    method IncomingData(msg: seq<byte>) returns (level: ConsumeLevel, replies: seq<seq<byte>>)
      requires Valid() && |msg| >= 4
      modifies this, m_LastSendPacket
      ensures Valid() && m_LastSendPacket == old(m_LastSendPacket)
      ensures Outcome(State(), level, replies) == Incoming(old(State()), msg)
    {
      level, replies := CL_ASSIGN, [];
      var opcode := Opcode(msg);
      if opcode == ERROR {
        m_Closed := true;
      } else if opcode == DATA {
        m_Retries := 0;
        var block := BlockNumber(msg);
        if block != m_Blocks + 1 {
          return;
        }
        var ack := Ack(block);
        replies := [ack];
        m_LastSendLength := 4;
        forall i | 0 <= i < 4 {
          m_LastSendPacket[i] := ack[i];
        }
        assert m_LastSendPacket[..4] == ack;
        m_Blocks := m_Blocks + 1;
        if |m_Buffer| + |msg| - 4 > m_MaxFileSize {
          m_Closed := true;
          level := CL_DROP;
          return;
        }
        m_Buffer := m_Buffer + msg[4..];
        if |msg| < LAST_PACKET {
          m_Submissions := m_Submissions + [m_Buffer];
          m_Closed := true;
        } else if |m_Buffer| > HARD_LIMIT {
          level := CL_DROP;
        }
      }
    }

    method HandleTimeout() returns (level: ConsumeLevel, replies: seq<seq<byte>>)
      requires Valid()
      modifies this`m_Retries
      ensures Valid() && Outcome(State(), level, replies) == Timeout(old(State()))
    {
      m_Retries := m_Retries + 1;
      if m_Retries < m_MaxRetries {
        return CL_ASSIGN, [m_LastSendPacket[..m_LastSendLength]];
      } else {
        return CL_DROP, [];
      }
    }
  }
}
