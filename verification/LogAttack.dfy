/** The attack logger: attacks own sub-contexts, which end one by one; with the last one the attack is logged. */
module LogAttack {
  import opened Options

  /** What a sub-context is kept for. A socket, DNS query or download finds its sub-context by its own identity. */
  datatype Key = SocketKey(id: nat) | QueryKey(id: nat) | DownloadKey(id: nat)

  datatype Kind = SocketCtx | DNSCtx | DownloadCtx | ShellcodeCtx

  datatype Sub = Sub(kind: Kind, active: bool)

  /** What is written for an attack: its sub-contexts and whether each of them is still active. */
  datatype Entry = Entry(attack: nat, ctxs: seq<nat>, active: seq<bool>)

  /**
   * subs, attacks: the allocated contexts by their addresses, an attack with its list of sub-contexts.
   * attackOf: m_AttackCtxs. ctxs: m_SocketCtxs, m_DNSCtxs and m_DownloadCtxs.
   * nextSub, nextAttack: addresses never used so far. freed: the deleted sub-contexts.
   */
  datatype Tracker = Tracker(
    subs: map<nat, Sub>,
    attacks: map<nat, seq<nat>>,
    attackOf: map<nat, nat>,
    ctxs: map<Key, nat>,
    count: int,
    currentAttack: Option<nat>,
    currentSocket: Option<nat>,
    currentShellcode: Option<nat>,
    logged: seq<Entry>,
    freed: seq<nat>,
    nextSub: nat,
    nextAttack: nat)

  const Empty := Tracker(map[], map[], map[], map[], 0, None, None, None, [], [], 0, 0)

  datatype Event =
    | DnsQueryCreated(query: nat)
    | DnsQueryDestroyed(query: nat)
    | DnsQueryAnswered(query: nat)
    | DnsQueryStop
    | Download(download: nat)
    | DownloadDestroyed(download: nat)
    | Shellcode
    | ShellcodeEnd
    | Accept(parent: nat, socket: nat)
    | Bind(socket: nat)
    | ConnectRequest(socket: nat)
    | Close(socket: nat)
    | Received(socket: nat)
    | Stop
    | Sent(socket: nat)
    | Connected(socket: nat)
    | Submission(download: nat)
    | Timeout

  // ---------------------------------------------------------------- the parts of handleEvent

  function ActiveFlags(subs: map<nat, Sub>, ctxs: seq<nat>): (r: seq<bool>)
    ensures |r| == |ctxs|
  {
    if ctxs == [] then [] else [ctxs[0] in subs && subs[ctxs[0]].active] + ActiveFlags(subs, ctxs[1..])
  }

  function AttackOf(t: Tracker, x: nat): Option<nat> {
    if x in t.attackOf then Some(t.attackOf[x]) else None
  }

  function ListOf(t: Tracker, a: nat): seq<nat> {
    if a in t.attacks then t.attacks[a] else []
  }

  /** A new active sub-context joins an attack, if there is one. Shellcode contexts get no entry in attackOf. */
  function AddSub(t: Tracker, kind: Kind, attack: Option<nat>): Tracker {
    var x := t.nextSub;
    var t1 := t.(subs := t.subs[x := Sub(kind, true)], nextSub := x + 1);
    match attack
    case None => t1
    case Some(a) =>
      t1.(attacks := t.attacks[a := ListOf(t, a) + [x]],
          attackOf := if kind == ShellcodeCtx then t.attackOf else t.attackOf[x := a])
  }

  function AddKeyed(t: Tracker, k: Key, kind: Kind, attack: Option<nat>): Tracker {
    AddSub(t, kind, attack).(ctxs := t.ctxs[k := t.nextSub])
  }

  function SetInactive(t: Tracker, x: nat): Tracker {
    if x in t.subs then t.(subs := t.subs[x := t.subs[x].(active := false)]) else t
  }

  /** An attack without active sub-contexts is logged and deleted with all of them. */
  function AttemptClosure(t: Tracker, a: nat): Tracker {
    var ctxs := ListOf(t, a);
    if true in ActiveFlags(t.subs, ctxs) then t
    else
      t.(logged := t.logged + [Entry(a, ctxs, ActiveFlags(t.subs, ctxs))],
         freed := t.freed + ctxs, subs := t.subs - (set x | x in ctxs), attacks := t.attacks - {a},
         count := t.count - 1)
  }

  /** The end of a keyed sub-context. One that belongs to no attack is deleted at once. */
  function Retire(t: Tracker, k: Key): Tracker {
    if k !in t.ctxs then t
    else
      var x := t.ctxs[k];
      var t1 := SetInactive(t.(ctxs := t.ctxs - {k}), x);
      var t2 := if x in t.attackOf then AttemptClosure(t1, t.attackOf[x])
                else t1.(subs := t1.subs - {x}, freed := t1.freed + [x]);
      t2.(attackOf := t2.attackOf - {x})
  }

  function WithNewAttack(t: Tracker): Tracker {
    t.(attacks := t.attacks[t.nextAttack := []], nextAttack := t.nextAttack + 1, count := t.count + 1)
  }

  function After(t: Tracker, e: Event): Tracker {
    match e
    case DnsQueryCreated(query) => AddKeyed(t, QueryKey(query), DNSCtx, t.currentAttack)
    case DnsQueryDestroyed(query) => Retire(t, QueryKey(query))
    case DnsQueryAnswered(query) =>
      if QueryKey(query) in t.ctxs then t.(currentAttack := AttackOf(t, t.ctxs[QueryKey(query)])) else t
    case DnsQueryStop => t.(currentAttack := None)
    case Download(download) => AddKeyed(t, DownloadKey(download), DownloadCtx, t.currentAttack)
    case DownloadDestroyed(download) => Retire(t, DownloadKey(download))
    case Shellcode => AddSub(t, ShellcodeCtx, t.currentAttack).(currentShellcode := Some(t.nextSub))
    case ShellcodeEnd =>
      if t.currentShellcode.Some? then SetInactive(t, t.currentShellcode.value).(currentShellcode := None) else t
    case Accept(parent, socket) =>
      var known := if SocketKey(parent) in t.ctxs then AttackOf(t, t.ctxs[SocketKey(parent)]) else None;
      var a := if known.Some? then known.value else t.nextAttack;
      var t1 := if known.Some? then t else WithNewAttack(t);
      AddKeyed(t1, SocketKey(socket), SocketCtx, Some(a)).(currentAttack := Some(a), currentSocket := Some(t.nextSub))
    case Bind(socket) => AddKeyed(t, SocketKey(socket), SocketCtx, t.currentAttack)
    case ConnectRequest(socket) => AddKeyed(t, SocketKey(socket), SocketCtx, t.currentAttack)
    case Close(socket) => Retire(t, SocketKey(socket))
    case Received(socket) =>
      if SocketKey(socket) in t.ctxs then
        t.(currentSocket := Some(t.ctxs[SocketKey(socket)]), currentAttack := AttackOf(t, t.ctxs[SocketKey(socket)]))
      else t
    case Stop => t.(currentAttack := None, currentSocket := None)
    case Sent(_) | Connected(_) | Submission(_) | Timeout => t
  }

  /** An assertion of the code fails. bind: a closed socket without a context is a bind socket. */
  predicate Fails(t: Tracker, e: Event) {
    match e
    case DnsQueryCreated(query) => t.currentAttack.None?
    case DnsQueryDestroyed(query) =>
      QueryKey(query) !in t.ctxs || t.ctxs[QueryKey(query)] !in t.attackOf || !Alive(t, QueryKey(query))
    case DnsQueryAnswered(query) =>
      QueryKey(query) !in t.ctxs
      || (t.currentAttack.Some? && AttackOf(t, t.ctxs[QueryKey(query)]) !in {None, t.currentAttack})
    case DnsQueryStop => t.currentAttack.None?
    case Download(download) => t.currentAttack.None? || t.currentSocket.None?
    case DownloadDestroyed(download) =>
      || DownloadKey(download) !in t.ctxs || t.ctxs[DownloadKey(download)] !in t.attackOf
      || !Alive(t, DownloadKey(download))
    case Shellcode => t.currentSocket.None? || t.currentAttack.None?
    case ShellcodeEnd =>
      t.currentShellcode.None? || t.currentShellcode.value !in t.subs || !t.subs[t.currentShellcode.value].active
    case Accept(parent, socket) => SocketKey(parent) !in t.ctxs || SocketKey(socket) in t.ctxs
    case Bind(socket) => SocketKey(socket) in t.ctxs
    case ConnectRequest(socket) => t.currentAttack.None? || SocketKey(socket) in t.ctxs
    case Close(socket) => SocketKey(socket) in t.ctxs && !Alive(t, SocketKey(socket))
    case Received(socket) => SocketKey(socket) !in t.ctxs || t.ctxs[SocketKey(socket)] !in t.attackOf
    case Stop => t.currentSocket.None?
    case Sent(socket) => SocketKey(socket) !in t.ctxs || t.ctxs[SocketKey(socket)] !in t.attackOf
    case Connected(socket) => SocketKey(socket) !in t.ctxs
    case Submission(download) => DownloadKey(download) !in t.ctxs
    case Timeout => false
  }

  /** The keyed sub-context exists and is active. */
  predicate Alive(t: Tracker, k: Key)
    requires k in t.ctxs
  {
    t.ctxs[k] in t.subs && t.subs[t.ctxs[k]].active
  }

  // ---------------------------------------------------------------- the logger

  class LogAttackModule {
    var m_AttackCtxs: map<nat, nat>
    var m_Ctxs: map<Key, nat>
    var m_AttackCtxsCount: int
    var m_AttackCtx: Option<nat>
    var m_SocketCtx: Option<nat>
    var m_ShellcodeCtx: Option<nat>
    /** The allocated contexts, and what was written and deleted. */
    var m_Subs: map<nat, Sub>
    var m_Attacks: map<nat, seq<nat>>
    var m_Logged: seq<Entry>
    var m_Freed: seq<nat>
    var m_NextSub: nat
    var m_NextAttack: nat

    constructor ()
      ensures State() == Empty
    {
      m_AttackCtxs, m_Ctxs, m_AttackCtxsCount := map[], map[], 0;
      m_AttackCtx, m_SocketCtx, m_ShellcodeCtx := None, None, None;
      m_Subs, m_Attacks, m_Logged, m_Freed, m_NextSub, m_NextAttack := map[], map[], [], [], 0, 0;
    }

    ghost function State(): Tracker
      reads this
    {
      Tracker(m_Subs, m_Attacks, m_AttackCtxs, m_Ctxs, m_AttackCtxsCount, m_AttackCtx, m_SocketCtx, m_ShellcodeCtx,
              m_Logged, m_Freed, m_NextSub, m_NextAttack)
    }

    /** new of a sub-context, and its registration with an attack. */
    method CreateSub(kind: Kind, attack: Option<nat>) returns (x: nat)
      requires attack.Some? ==> attack.value in m_Attacks
      modifies this
      ensures x == old(m_NextSub) && State() == AddSub(old(State()), kind, attack)
    {
      x := m_NextSub;
      m_Subs, m_NextSub := m_Subs[x := Sub(kind, true)], x + 1;
      if attack.Some? {
        if kind != ShellcodeCtx {
          m_AttackCtxs := m_AttackCtxs[x := attack.value];
        }
        m_Attacks := m_Attacks[attack.value := m_Attacks[attack.value] + [x]];
      }
    }

    method CreateKeyed(k: Key, kind: Kind, attack: Option<nat>)
      requires attack.Some? ==> attack.value in m_Attacks
      modifies this
      ensures State() == AddKeyed(old(State()), k, kind, attack)
    {
      var x := CreateSub(kind, attack);
      m_Ctxs := m_Ctxs[k := x];
    }

    method GetActiveCtxCount(a: nat) returns (count: nat)
      requires a in m_Attacks
      ensures count > 0 <==> true in ActiveFlags(m_Subs, m_Attacks[a])
    {
      count := 0;
      var i, ctxs := 0, m_Attacks[a];
      while i < |ctxs|
        invariant 0 <= i <= |ctxs|
        invariant true in ActiveFlags(m_Subs, ctxs) <==> count > 0 || true in ActiveFlags(m_Subs, ctxs[i..])
      {
        assert ctxs[i..][0] == ctxs[i] && ctxs[i..][1..] == ctxs[i+1..];
        if ctxs[i] in m_Subs && m_Subs[ctxs[i]].active {
          count := count + 1;
        }
        i := i + 1;
      }
    }

    method AttemptAttackCtxClosure(a: nat)
      requires a in m_Attacks
      modifies this
      ensures State() == AttemptClosure(old(State()), a)
    {
      var count := GetActiveCtxCount(a);
      if count == 0 {
        var ctxs := m_Attacks[a];
        m_Logged := m_Logged + [Entry(a, ctxs, ActiveFlags(m_Subs, ctxs))];
        m_Freed := m_Freed + ctxs;
        m_Subs := m_Subs - (set x | x in ctxs);
        m_Attacks := m_Attacks - {a};
        m_AttackCtxsCount := m_AttackCtxsCount - 1;
      }
    }

    /** closeSocketCtx, and the ends of DNS queries and downloads. */
    method CloseKeyed(k: Key)
      requires k in m_Ctxs ==>
        m_Ctxs[k] in m_Subs && (m_Ctxs[k] in m_AttackCtxs ==> m_AttackCtxs[m_Ctxs[k]] in m_Attacks)
      modifies this
      ensures State() == Retire(old(State()), k)
    {
      if k !in m_Ctxs {
        return;
      }
      var x := m_Ctxs[k];
      m_Ctxs := m_Ctxs - {k};
      m_Subs := m_Subs[x := m_Subs[x].(active := false)];
      if x in m_AttackCtxs {
        AttemptAttackCtxClosure(m_AttackCtxs[x]);
      } else {
        m_Subs := m_Subs - {x};
        m_Freed := m_Freed + [x];
      }
      m_AttackCtxs := m_AttackCtxs - {x};
    }

    /** The attacks that the code's pointers lead to have not been deleted. */
    ghost predicate Sound()
      reads this
    {
      && (m_AttackCtx.Some? ==> m_AttackCtx.value in m_Attacks)
      && (forall x :: x in m_AttackCtxs ==> m_AttackCtxs[x] in m_Attacks)
      && (forall k :: k in m_Ctxs ==> m_Ctxs[k] in m_Subs)
    }

    method HandleEvent(e: Event)
      requires Sound() && !Fails(State(), e)
      modifies this
      ensures State() == After(old(State()), e)
    {
      match e
      case DnsQueryCreated(query) => CreateKeyed(QueryKey(query), DNSCtx, m_AttackCtx);
      case DnsQueryDestroyed(query) => CloseKeyed(QueryKey(query));
      case DnsQueryAnswered(query) =>
        var x := m_Ctxs[QueryKey(query)];
        if x !in m_AttackCtxs {
          m_AttackCtx := None;
        } else if m_AttackCtx.None? {
          m_AttackCtx := Some(m_AttackCtxs[x]);
        }
      case DnsQueryStop => m_AttackCtx := None;
      case Download(download) => CreateKeyed(DownloadKey(download), DownloadCtx, m_AttackCtx);
      case DownloadDestroyed(download) => CloseKeyed(DownloadKey(download));
      case Shellcode =>
        var x := CreateSub(ShellcodeCtx, m_AttackCtx);
        m_ShellcodeCtx := Some(x);
      case ShellcodeEnd =>
        var x := m_ShellcodeCtx.value;
        m_Subs := m_Subs[x := m_Subs[x].(active := false)];
        m_ShellcodeCtx := None;
      case Accept(parent, socket) => HandleAccept(parent, socket);
      case Bind(socket) => CreateKeyed(SocketKey(socket), SocketCtx, m_AttackCtx);
      case ConnectRequest(socket) => CreateKeyed(SocketKey(socket), SocketCtx, m_AttackCtx);
      case Close(socket) => CloseKeyed(SocketKey(socket));
      case Received(socket) =>
        var x := m_Ctxs[SocketKey(socket)];
        m_SocketCtx := Some(x);
        m_AttackCtx := Some(m_AttackCtxs[x]);
      case Stop =>
        m_AttackCtx := None;
        m_SocketCtx := None;
      case Sent(_) | Connected(_) | Submission(_) | Timeout =>
    }

    /** The attack that an accepted connection belongs to: its listener's, or a new one. */
    method AttackForAccept(p: nat) returns (a: nat)
      requires p in m_AttackCtxs ==> m_AttackCtxs[p] in m_Attacks
      modifies this
      ensures a in m_Attacks
      ensures p in old(m_AttackCtxs) ==> a == old(m_AttackCtxs[p]) && State() == old(State())
      ensures p !in old(m_AttackCtxs) ==> a == old(m_NextAttack) && State() == WithNewAttack(old(State()))
    {
      if p in m_AttackCtxs {
        a := m_AttackCtxs[p];
      } else {
        a := m_NextAttack;
        m_Attacks := m_Attacks[a := []];
        m_NextAttack := a + 1;
        m_AttackCtxsCount := m_AttackCtxsCount + 1;
      }
    }

    method HandleAccept(parent: nat, socket: nat)
      requires Sound() && SocketKey(parent) in m_Ctxs
      modifies this
      ensures State() == After(old(State()), Accept(parent, socket))
    {
      var a := AttackForAccept(m_Ctxs[SocketKey(parent)]);
      CreateKeyed(SocketKey(socket), SocketCtx, Some(a));
      m_AttackCtx := Some(a);
      m_SocketCtx := Some(m_Ctxs[SocketKey(socket)]);
    }
  }
}
