/** The SURFnet logger: it tracks sockets and holds details back until the database has given the attack its id. */
module LogSurfnet {
  const AS_POSSIBLE := 0x0
  const AS_DEFINITELY := 0x1
  const DT_DIALOGUE_NAME := 0x1
  const DT_SHELLCODEHANDLER_NAME := 0x2

  /** Sockets are known by their address, cut to 32 bits. */
  type Key = k: int | 0 <= k < 0x1_0000_0000

  datatype Detail = Detail(host: nat, kind: int, data: string)

  datatype Context = Context(attackID: nat, details: seq<Detail>, closed: bool, severity: int)

  const NewContext := Context(0, [], false, -1)

  datatype Query =
    | AttackAdd(key: Key)
    | DetailAdd(attackID: nat, detail: Detail)
    | UpdateSeverity(attackID: nat, severity: int)

  type SocketTracker = map<Key, Context>

  datatype State = State(tracker: SocketTracker, queries: seq<Query>)

  /** operator[] of the tracker map. */
  function At(t: SocketTracker, k: Key): Context {
    if k in t then t[k] else NewContext
  }

  function AfterAccept(s: State, k: Key): State {
    State(s.tracker[k := At(s.tracker, k).(attackID := 0)], s.queries + [AttackAdd(k)])
  }

  function AfterClose(s: State, k: Key): State {
    if k !in s.tracker then s
    else if s.tracker[k].details != [] then s.(tracker := s.tracker[k := s.tracker[k].(closed := true)])
    else s.(tracker := s.tracker - {k})
  }

  function AfterDialogue(s: State, k: Key, host: nat, name: string): State {
    var d := Detail(host, DT_DIALOGUE_NAME, name);
    if k !in s.tracker then s
    else if s.tracker[k].attackID > 0 then
      s.(queries := s.queries + [DetailAdd(s.tracker[k].attackID, d)]
                    + [UpdateSeverity(s.tracker[k].attackID, AS_DEFINITELY)])
    else
      s.(tracker := s.tracker[k := s.tracker[k].(details := s.tracker[k].details + [d], severity := AS_DEFINITELY)])
  }

  function AfterShellcode(s: State, k: Key, host: nat, name: string): State {
    var d := Detail(host, DT_SHELLCODEHANDLER_NAME, name);
    if k !in s.tracker then s
    else if s.tracker[k].attackID > 0 then s.(queries := s.queries + [DetailAdd(s.tracker[k].attackID, d)])
    else s.(tracker := s.tracker[k := s.tracker[k].(details := s.tracker[k].details + [d])])
  }

  function Inserts(id: nat, details: seq<Detail>): seq<Query> {
    if details == [] then [] else [DetailAdd(id, details[0])] + Inserts(id, details[1..])
  }

  function AfterSuccess(s: State, k: Key, id: nat): State {
    var c := At(s.tracker, k);
    var queries := s.queries + Inserts(id, c.details)
                   + if c.severity != -1 then [UpdateSeverity(id, c.severity)] else [];
    State(if c.closed then s.tracker - {k} else s.tracker[k := c.(attackID := id, details := [])], queries)
  }

  function AfterFailure(s: State, k: Key): State {
    s.(tracker := s.tracker - {k})
  }

  predicate Listed(ports: seq<nat>, anyPort: bool, port: nat) {
    anyPort || port in ports
  }

  class LogSurfNET {
    const m_AnyPort: bool
    const m_Ports: seq<nat>
    var m_SocketTracker: SocketTracker
    /** What was handed to the SQL handler. */
    var m_Queries: seq<Query>

    constructor (anyPort: bool, ports: seq<nat>)
      ensures m_AnyPort == anyPort && m_Ports == ports && Abs() == State(map[], [])
    {
      m_AnyPort, m_Ports, m_SocketTracker, m_Queries := anyPort, ports, map[], [];
    }

    ghost function Abs(): State
      reads this
    {
      State(m_SocketTracker, m_Queries)
    }

    method AddQuery(q: Query)
      modifies this`m_Queries
      ensures m_Queries == old(m_Queries) + [q]
    {
      m_Queries := m_Queries + [q];
    }

    method IsListed(localPort: nat) returns (process: bool)
      ensures process == Listed(m_Ports, m_AnyPort, localPort)
      ensures process <==> m_AnyPort || exists i :: 0 <= i < |m_Ports| && m_Ports[i] == localPort
    {
      process := false;
      if m_AnyPort {
        return true;
      }
      var i := 0;
      while i < |m_Ports|
        invariant 0 <= i <= |m_Ports|
        invariant process == (localPort in m_Ports[..i])
      {
        if m_Ports[i] == localPort {
          process := true;
        }
        i := i + 1;
      }
      assert m_Ports[..i] == m_Ports;
    }

    method HandleTCPAccept(k: Key, localPort: nat)
      modifies this
      ensures Abs() == if Listed(m_Ports, m_AnyPort, localPort) then AfterAccept(old(Abs()), k) else old(Abs())
    {
      var process := IsListed(localPort);
      if process {
        AddQuery(AttackAdd(k));
        m_SocketTracker := m_SocketTracker[k := At(m_SocketTracker, k).(attackID := 0)];
      }
    }

    method HandleTCPClose(k: Key)
      modifies this
      ensures Abs() == AfterClose(old(Abs()), k)
    {
      if k in m_SocketTracker {
        if |m_SocketTracker[k].details| > 0 {
          m_SocketTracker := m_SocketTracker[k := m_SocketTracker[k].(closed := true)];
        } else {
          m_SocketTracker := m_SocketTracker - {k};
        }
      }
    }

    method HandleDialogueAssignAndDone(k: Key, host: nat, name: string)
      modifies this
      ensures Abs() == AfterDialogue(old(Abs()), k, host, name)
    {
      if k !in m_SocketTracker {
        return;
      }
      var attackid, d := m_SocketTracker[k].attackID, Detail(host, DT_DIALOGUE_NAME, name);
      if attackid > 0 {
        AddQuery(DetailAdd(attackid, d));
        AddQuery(UpdateSeverity(attackid, AS_DEFINITELY));
      } else {
        m_SocketTracker := m_SocketTracker[k := m_SocketTracker[k].(details := m_SocketTracker[k].details + [d])];
        m_SocketTracker := m_SocketTracker[k := m_SocketTracker[k].(severity := AS_DEFINITELY)];
      }
    }

    method HandleShellcodeDone(k: Key, host: nat, name: string)
      modifies this
      ensures Abs() == AfterShellcode(old(Abs()), k, host, name)
    {
      if k !in m_SocketTracker {
        return;
      }
      var attackid, d := m_SocketTracker[k].attackID, Detail(host, DT_SHELLCODEHANDLER_NAME, name);
      if attackid > 0 {
        AddQuery(DetailAdd(attackid, d));
      } else {
        m_SocketTracker := m_SocketTracker[k := m_SocketTracker[k].(details := m_SocketTracker[k].details + [d])];
      }
    }

    method SqlSuccess(k: Key, id: nat)
      modifies this
      ensures Abs() == AfterSuccess(old(Abs()), k, id)
    {
      ghost var c := At(m_SocketTracker, k);
      ghost var before := m_SocketTracker;
      m_SocketTracker := m_SocketTracker[k := At(m_SocketTracker, k).(attackID := id)];
      while |m_SocketTracker[k].details| > 0
        invariant k in m_SocketTracker
        invariant m_SocketTracker == before[k := c.(attackID := id, details := m_SocketTracker[k].details)]
        invariant m_Queries + Inserts(id, m_SocketTracker[k].details) == old(m_Queries) + Inserts(id, c.details)
        decreases |m_SocketTracker[k].details|
      {
        AddQuery(DetailAdd(m_SocketTracker[k].attackID, m_SocketTracker[k].details[0]));
        m_SocketTracker := m_SocketTracker[k := m_SocketTracker[k].(details := m_SocketTracker[k].details[1..])];
      }
      if m_SocketTracker[k].severity != -1 {
        AddQuery(UpdateSeverity(m_SocketTracker[k].attackID, m_SocketTracker[k].severity));
      }
      if m_SocketTracker[k].closed {
        m_SocketTracker := m_SocketTracker - {k};
      }
    }

    method SqlFailure(k: Key)
      modifies this
      ensures Abs() == AfterFailure(old(Abs()), k)
    {
      m_SocketTracker := m_SocketTracker - {k};
    }
  }
}
